/** The events list (`EventsList`): the category and location options and the
    search/category/location filter. */
module EventsList {
  import opened Wrappers
  import opened Types
  import opened Text
  import opened Seqs

  /** The lower-cased search term occurs in the lower-cased title or description. */
  predicate MatchesSearch(e: Event, searchTerm: string) {
    Contains(Lower(e.title), Lower(searchTerm)) || Contains(Lower(e.description), Lower(searchTerm))
  }

  predicate MatchesCategory(e: Event, selectedCategory: string) {
    selectedCategory == "" || selectedCategory == "All" || e.category == selectedCategory
  }

  predicate MatchesLocation(e: Event, selectedLocation: string) {
    || selectedLocation == ""
    || selectedLocation == "All"
    || (selectedLocation == "Virtual" && e.isVirtual)
    || (!e.isVirtual && e.location == selectedLocation)
  }

  /** The callback given to `events.filter`. */
  function Keeps(searchTerm: string, selectedCategory: string, selectedLocation: string): Event -> bool {
    (e: Event) =>
      MatchesSearch(e, searchTerm) && MatchesCategory(e, selectedCategory) && MatchesLocation(e, selectedLocation)
  }

  /** `filteredEvents` */
  function FilteredEvents(events: seq<Event>, searchTerm: string, selectedCategory: string, selectedLocation: string)
    : seq<Event>
  {
    Filter(events, Keeps(searchTerm, selectedCategory, selectedLocation))
  }

  /** `categories`: `"All"`, then each category once, in first-occurrence order. */
  function Categories(events: seq<Event>): seq<string> {
    ["All"] + Dedup(Map(events, (e: Event) => e.category))
  }

  /** `locations`: `"All"`, `"Virtual"`, then each location of an in-person
      event once, in first-occurrence order. */
  function Locations(events: seq<Event>): seq<string> {
    ["All", "Virtual"] + Dedup(InPersonLocations(events))
  }

  /** The locations of the in-person events, in list order, repeats included. */
  function InPersonLocations(events: seq<Event>): seq<string> {
    Map(Filter(events, (e: Event) => !e.isVirtual), (e: Event) => e.location)
  }

  /** The filtered list keeps the input order, and an event is in it exactly
      when it matches the search, the category and the location. */
  lemma FilteredEventsFacts(events: seq<Event>, searchTerm: string, selectedCategory: string, selectedLocation: string)
    ensures IsSubseq(FilteredEvents(events, searchTerm, selectedCategory, selectedLocation), events)
    ensures forall i :: 0 <= i < |events| ==>
              (events[i] in FilteredEvents(events, searchTerm, selectedCategory, selectedLocation) <==>
               MatchesSearch(events[i], searchTerm) && MatchesCategory(events[i], selectedCategory) &&
               MatchesLocation(events[i], selectedLocation))
  {
    var keep := Keeps(searchTerm, selectedCategory, selectedLocation);
    var r := FilteredEvents(events, searchTerm, selectedCategory, selectedLocation);
    FilterIsSubseq(events, keep);
    forall i | 0 <= i < |events| && events[i] in r ensures keep(events[i]) {
      var j :| 0 <= j < |r| && r[j] == events[i];
    }
  }

  /** An empty search with no category and no location selected shows every event. */
  lemma NoFilterShowsAll(events: seq<Event>, selectedCategory: string, selectedLocation: string)
    requires selectedCategory == "" || selectedCategory == "All"
    requires selectedLocation == "" || selectedLocation == "All"
    ensures FilteredEvents(events, "", selectedCategory, selectedLocation) == events
  {
    var keep := Keeps("", selectedCategory, selectedLocation);
    forall i | 0 <= i < |events| ensures keep(events[i]) {
      assert Lower("") == "";
      ContainsEmpty(Lower(events[i].title));
    }
    FilterAllPass(events, keep);
  }

  /** A named place keeps only in-person events held there. */
  lemma PlaceSelection(events: seq<Event>, searchTerm: string, selectedCategory: string, place: string)
    requires place != "" && place != "All" && place != "Virtual"
    ensures forall e :: e in FilteredEvents(events, searchTerm, selectedCategory, place) ==>
              !e.isVirtual && e.location == place
  {
  }

  /** `"Virtual"` keeps every virtual event that matches the rest, and also an
      in-person event whose location is literally `"Virtual"`. */
  lemma VirtualSelection(events: seq<Event>, searchTerm: string, selectedCategory: string)
    ensures forall i :: 0 <= i < |events| && MatchesSearch(events[i], searchTerm) &&
                        MatchesCategory(events[i], selectedCategory) ==>
              (events[i] in FilteredEvents(events, searchTerm, selectedCategory, "Virtual") <==>
               events[i].isVirtual || events[i].location == "Virtual")
  {
    FilteredEventsFacts(events, searchTerm, selectedCategory, "Virtual");
  }

  /** The category options: `"All"` first, then every category that occurs,
      each once, ordered by first occurrence. */
  lemma CategoriesFacts(events: seq<Event>)
    ensures Categories(events)[0] == "All"
    ensures NoDups(Categories(events)[1..])
    ensures forall i :: 0 <= i < |events| ==> events[i].category in Categories(events)[1..]
    ensures forall c :: c in Categories(events)[1..] ==> exists i :: 0 <= i < |events| && events[i].category == c
    ensures var cs := Map(events, (e: Event) => e.category);
            forall i, j :: 1 <= i < j < |Categories(events)| ==>
              FirstIndex(cs, Categories(events)[i]) < FirstIndex(cs, Categories(events)[j])
  {
    var cs := Map(events, (e: Event) => e.category);
    var d := Dedup(cs);
    assert Categories(events)[1..] == d;
    DedupFirstOccurrenceOrder(cs);
    forall c | c in d ensures exists i :: 0 <= i < |events| && events[i].category == c {
      var k :| 0 <= k < |d| && d[k] == c;
      var i :| 0 <= i < |cs| && cs[i] == c;
    }
    forall i, j | 1 <= i < j < |Categories(events)|
      ensures FirstIndex(cs, Categories(events)[i]) < FirstIndex(cs, Categories(events)[j])
    {
      assert Categories(events)[i] == d[i - 1] && Categories(events)[j] == d[j - 1];
    }
  }

  /** The location options: `"All"`, `"Virtual"`, then every location of an
      in-person event, each once; a virtual event contributes no location. */
  lemma LocationsFacts(events: seq<Event>)
    ensures Locations(events)[..2] == ["All", "Virtual"]
    ensures NoDups(Locations(events)[2..])
    ensures forall i :: 0 <= i < |events| && !events[i].isVirtual ==> events[i].location in Locations(events)[2..]
    ensures forall l :: l in Locations(events)[2..] ==>
              exists i :: 0 <= i < |events| && !events[i].isVirtual && events[i].location == l
  {
    var inPerson := Filter(events, (e: Event) => !e.isVirtual);
    var ls := InPersonLocations(events);
    var d := Dedup(ls);
    assert Locations(events)[2..] == d;
    forall i | 0 <= i < |events| && !events[i].isVirtual ensures events[i].location in d {
      var k :| 0 <= k < |inPerson| && inPerson[k] == events[i];
      assert ls[k] == events[i].location;
    }
    forall l | l in d ensures exists i :: 0 <= i < |events| && !events[i].isVirtual && events[i].location == l {
      var k :| 0 <= k < |ls| && ls[k] == l;
      assert inPerson[k] in events;
      var i :| 0 <= i < |events| && events[i] == inPerson[k];
    }
  }

  /** The in-person locations appear in the options in the order of their
      first occurrence among the in-person events. */
  lemma LocationsOrder(events: seq<Event>)
    ensures forall i :: 2 <= i < |Locations(events)| ==> Locations(events)[i] in InPersonLocations(events)
    ensures forall i, j :: 2 <= i < j < |Locations(events)| ==>
              FirstIndex(InPersonLocations(events), Locations(events)[i]) <
              FirstIndex(InPersonLocations(events), Locations(events)[j])
  {
    DedupOrderAfter(["All", "Virtual"], InPersonLocations(events));
  }
}
