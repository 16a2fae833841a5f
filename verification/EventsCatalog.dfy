/** The event catalog (`EventsContext`): the list of events, newest first, and
    the loading flag, with create, update, delete, lookup and fetch. */
module EventsCatalog {
  import opened Wrappers
  import opened Types
  import opened Text
  import opened Seqs

  /** `e => e.id === id` */
  function HasId(id: string): Event -> bool {
    (e: Event) => e.id == id
  }

  /** `e => e.id !== id` */
  function LacksId(id: string): Event -> bool {
    (e: Event) => e.id != id
  }

  /** `events.find(e => e.id === id) || null` */
  function FindById(events: seq<Event>, id: string): Option<Event> {
    Find(events, HasId(id))
  }

  /** A JavaScript `||` with a string: a missing or empty value is falsy. */
  predicate Truthy(s: Option<string>) {
    s.Some? && s.value != ""
  }

  /** `supplied || fallback` for a string property. */
  function OrElse(supplied: Option<string>, fallback: string): string {
    if Truthy(supplied) then supplied.value else fallback
  }

  /** `v` is what `supplied || fallback` gives: the supplied value when it is
      truthy, the fallback when it is missing or empty. */
  predicate TakenOrDefaulted(supplied: Option<string>, fallback: string, v: string) {
    (Truthy(supplied) && v == supplied.value) || (!Truthy(supplied) && v == fallback)
  }

  /** The record `createEvent` builds from a partial event. `nowMs` is
      `Date.now()`; `nowIso` is `new Date().toISOString()`. */
  function NewEvent(p: EventPatch, nowMs: nat, nowIso: string): (e: Event)
    ensures e.id == "event-" + NatToString(nowMs) && e.createdAt == Some(nowIso)
    ensures TakenOrDefaulted(p.title, "", e.title)
    ensures TakenOrDefaulted(p.description, "", e.description)
    ensures TakenOrDefaulted(p.date, nowIso, e.date)
    ensures TakenOrDefaulted(p.startTime, "10:00", e.startTime)
    ensures TakenOrDefaulted(p.endTime, "12:00", e.endTime)
    ensures TakenOrDefaulted(p.location, "", e.location)
    ensures TakenOrDefaulted(p.category, "Other", e.category)
    ensures TakenOrDefaulted(p.organizer, "Unknown", e.organizer)
    ensures TakenOrDefaulted(p.organizerId, "", e.organizerId)
    ensures e.virtualLink.Some? && TakenOrDefaulted(p.virtualLink, "", e.virtualLink.value)
    ensures e.imageUrl.Some? && TakenOrDefaulted(p.imageUrl, "", e.imageUrl.value)
    ensures e.externalUrl.Some? && TakenOrDefaulted(p.externalUrl, "", e.externalUrl.value)
    ensures e.isVirtual <==> p.isVirtual == Some(true)
    ensures e.attendees == (if p.attendees.Some? then p.attendees.value else [])
    ensures e.price == Some(if p.price.Some? then p.price.value else 0.0)
    ensures e.agenda == None && e.speakers == None
    ensures e.startTime != "" && e.endTime != "" && e.category != "" && e.organizer != ""
  {
    Event(
      "event-" + NatToString(nowMs),
      OrElse(p.title, ""), OrElse(p.description, ""), OrElse(p.date, nowIso),
      OrElse(p.startTime, "10:00"), OrElse(p.endTime, "12:00"), OrElse(p.location, ""),
      p.isVirtual == Some(true),
      Some(OrElse(p.virtualLink, "")), Some(OrElse(p.imageUrl, "")),
      OrElse(p.category, "Other"), OrElse(p.organizer, "Unknown"), OrElse(p.organizerId, ""),
      p.attendees.GetOr([]),
      // `price || 0`: a supplied 0 becomes 0 again, so the supplied value is kept
      Some(p.price.GetOr(0.0)),
      Some(OrElse(p.externalUrl, "")),
      Some(nowIso), None, None)
  }

  /** `e => e.id === id ? { ...e, ...p } : e` */
  function MergeIfId(id: string, p: EventPatch): Event -> Event {
    (e: Event) => if e.id == id then MergeEvent(e, p) else e
  }

  /** `events.map(e => e.id === id ? { ...e, ...p } : e)` */
  function UpdateMatching(events: seq<Event>, id: string, p: EventPatch): seq<Event> {
    Map(events, MergeIfId(id, p))
  }

  /** `events.filter(e => e.id !== id)` */
  function RemoveById(events: seq<Event>, id: string): seq<Event> {
    Filter(events, LacksId(id))
  }

  /** A lookup finds an event exactly when one has the id, and then it is
      the first such event in list order. */
  lemma FindByIdFacts(events: seq<Event>, id: string)
    ensures FindById(events, id).None? <==> forall i :: 0 <= i < |events| ==> events[i].id != id
    ensures FindById(events, id).Some? ==>
              exists k :: 0 <= k < |events| && events[k] == FindById(events, id).value && events[k].id == id &&
                          forall i :: 0 <= i < k ==> events[i].id != id
  {
    var r := FindById(events, id);
    if r.Some? {
      var k :| FirstSatisfying(events, HasId(id), k) && events[k] == r.value;
      assert HasId(id)(events[k]);
    }
  }

  /** The new event goes in front, so a lookup of its id finds it even when an
      older event already had that id; other lookups are unaffected. */
  lemma PrependShadows(e: Event, events: seq<Event>, id: string)
    ensures FindById([e] + events, id) == if e.id == id then Some(e) else FindById(events, id)
  {
    assert ([e] + events)[1..] == events;
  }

  /** `updateEvent(id, p)` merges `p` into exactly the events with that id,
      leaving the others, the length and the order as they were. */
  lemma UpdateMatchingFacts(events: seq<Event>, id: string, p: EventPatch)
    ensures |UpdateMatching(events, id, p)| == |events|
    ensures forall i :: 0 <= i < |events| && events[i].id == id ==>
              UpdateMatching(events, id, p)[i] == MergeEvent(events[i], p)
    ensures forall i :: 0 <= i < |events| && events[i].id != id ==>
              UpdateMatching(events, id, p)[i] == events[i]
  {
  }

  /** What `updateEvent(id, p)` returns, `updated.find(e => e.id === id)`:
      `undefined` for an unknown id, and also when the partial renames the
      event away from `id`; otherwise the merge of the first match. */
  lemma UpdateResult(events: seq<Event>, id: string, p: EventPatch)
    ensures (forall i :: 0 <= i < |events| ==> events[i].id != id) ==>
              UpdateMatching(events, id, p) == events && FindById(UpdateMatching(events, id, p), id) == None
    ensures FindById(events, id).Some? && (p.id == None || p.id == Some(id)) ==>
              FindById(UpdateMatching(events, id, p), id) == Some(MergeEvent(FindById(events, id).value, p))
    ensures p.id.Some? && p.id.value != id ==> FindById(UpdateMatching(events, id, p), id) == None
  {
    var r := UpdateMatching(events, id, p);
    if FindById(events, id).Some? && (p.id == None || p.id == Some(id)) {
      var k :| FirstSatisfying(events, HasId(id), k) && events[k] == FindById(events, id).value;
      assert events[k].id == id;
      assert FirstSatisfying(r, HasId(id), k) by {
        forall i | 0 <= i < k ensures !HasId(id)(r[i]) {
          assert !HasId(id)(events[i]);
        }
      }
      FindFirst(r, HasId(id), k);
    }
    if p.id.Some? && p.id.value != id {
      forall i | 0 <= i < |r| ensures !HasId(id)(r[i]) { }
    }
    if forall i :: 0 <= i < |events| ==> events[i].id != id {
      assert r == events;
    }
  }

  /** After `deleteEvent(id)` no event has that id, every other event is
      still there as often as before and in the same order, and deleting
      again changes nothing. */
  lemma RemoveByIdFacts(events: seq<Event>, id: string)
    ensures FindById(RemoveById(events, id), id) == None
    ensures forall i :: 0 <= i < |events| && events[i].id != id ==>
              multiset(RemoveById(events, id))[events[i]] == multiset(events)[events[i]]
    ensures IsSubseq(RemoveById(events, id), events)
    ensures RemoveById(RemoveById(events, id), id) == RemoveById(events, id)
    ensures (forall i :: 0 <= i < |events| ==> events[i].id != id) ==> RemoveById(events, id) == events
  {
    var r := RemoveById(events, id);
    forall i | 0 <= i < |r| ensures !HasId(id)(r[i]) {
      assert LacksId(id)(r[i]);
    }
    FilterIsSubseq(events, LacksId(id));
    FilterCounts(events, LacksId(id));
    RemoveByIdRepeat(events, id);
  }

  /** Deleting twice is deleting once, and deleting an absent id is a no-op. */
  lemma RemoveByIdRepeat(events: seq<Event>, id: string)
    ensures RemoveById(RemoveById(events, id), id) == RemoveById(events, id)
    ensures (forall i :: 0 <= i < |events| ==> events[i].id != id) ==> RemoveById(events, id) == events
  {
    FilterIdempotent(events, LacksId(id));
    if forall i :: 0 <= i < |events| ==> events[i].id != id {
      FilterAllPass(events, LacksId(id));
    }
  }

  class EventStore {
    var events: seq<Event>
    var isLoading: bool

    /** The provider's initial state: no events, not loading. */
    constructor ()
      ensures events == [] && !isLoading
    {
      events := [];
      isLoading := false;
    }

    /** `getEventById(id)` */
    function GetEventById(id: string): Option<Event>
      reads this
    {
      FindById(events, id)
    }

    /** `fetchEvents()`: the list becomes `fetched` (the generated demo events);
        a failure is caught and logged, never rethrown. */
    method FetchEvents(fetched: seq<Event>, rejected: bool)
      modifies this
      ensures !isLoading
      ensures events == if rejected then old(events) else fetched
    {
      isLoading := true;
      if !rejected {
        events := fetched;
      }
      isLoading := false;
    }

    /** `createEvent(p)`: the filled-in record is prepended and returned. */
    method CreateEvent(p: EventPatch, nowMs: nat, nowIso: string, rejected: bool)
      returns (r: Result<Event, StoreError>)
      modifies this
      ensures !isLoading
      ensures rejected ==> r == Err(Rejected) && events == old(events)
      ensures !rejected ==> r == Ok(NewEvent(p, nowMs, nowIso)) && events == [r.value] + old(events)
      ensures !rejected ==> GetEventById(r.value.id) == Some(r.value)
    {
      isLoading := true;
      if rejected {
        r := Err(Rejected);
      } else {
        var e := NewEvent(p, nowMs, nowIso);
        events := [e] + events;
        PrependShadows(e, old(events), e.id);
        r := Ok(e);
      }
      isLoading := false;
    }

    /** `updateEvent(id, p)`: every event with that id is merged with `p`;
        the result is the lookup of `id` afterwards, `undefined` included. */
    method UpdateEvent(id: string, p: EventPatch, rejected: bool)
      returns (r: Result<Option<Event>, StoreError>)
      modifies this
      ensures !isLoading
      ensures rejected ==> r == Err(Rejected) && events == old(events)
      ensures !rejected ==> events == UpdateMatching(old(events), id, p) && r == Ok(FindById(events, id))
    {
      isLoading := true;
      if rejected {
        r := Err(Rejected);
      } else {
        events := UpdateMatching(events, id, p);
        r := Ok(FindById(events, id));
      }
      isLoading := false;
    }

    /** `deleteEvent(id)`: an absent id is not an error. */
    method DeleteEvent(id: string, rejected: bool) returns (r: Result<(), StoreError>)
      modifies this
      ensures !isLoading
      ensures rejected ==> r == Err(Rejected) && events == old(events)
      ensures !rejected ==> r == Ok(()) && events == RemoveById(old(events), id)
    {
      isLoading := true;
      if rejected {
        r := Err(Rejected);
      } else {
        events := RemoveById(events, id);
        r := Ok(());
      }
      isLoading := false;
    }
  }
}
