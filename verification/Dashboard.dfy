/** The dashboard page (`DashboardPage`): the signed-in user's events, the
    owner-only controls and the redirect for a visitor who is not signed in. */
module Dashboard {
  import opened Wrappers
  import opened Types
  import opened Seqs
  import opened EventsCatalog

  /** `event => event.organizerId === userId || event.attendees.includes(userId)` */
  function Involves(userId: string): Event -> bool {
    (e: Event) => e.organizerId == userId || userId in e.attendees
  }

  /** The "my events" list the effect computes. */
  function MyEvents(events: seq<Event>, userId: string): seq<Event> {
    Filter(events, Involves(userId))
  }

  /** The Edit and Cancel controls are rendered for this event. */
  predicate ShowsOwnerControls(e: Event, userId: string) {
    e.organizerId == userId
  }

  /** "My events" keeps the catalog order, and an event is in it exactly when
      the user organizes it or is among its attendees. */
  lemma MyEventsFacts(events: seq<Event>, userId: string)
    ensures IsSubseq(MyEvents(events, userId), events)
    ensures forall i :: 0 <= i < |events| ==>
              (events[i] in MyEvents(events, userId) <==> events[i].organizerId == userId || userId in events[i].attendees)
  {
    FilterIsSubseq(events, Involves(userId));
    var r := MyEvents(events, userId);
    forall i | 0 <= i < |events| && events[i] in r ensures Involves(userId)(events[i]) {
      var j :| 0 <= j < |r| && r[j] == events[i];
    }
  }

  /** `event => event.organizerId === userId`: the events that get the
      owner controls. */
  function Owned(userId: string): Event -> bool {
    (e: Event) => ShowsOwnerControls(e, userId)
  }

  /** The dashboard events that carry the owner controls are exactly the
      catalog events the user organizes, in catalog order and as often as the
      catalog has them; every listed event without the controls is one the
      user attends. */
  lemma ControlsOnlyForOwnEvents(events: seq<Event>, userId: string)
    ensures Filter(MyEvents(events, userId), Owned(userId)) == Filter(events, Owned(userId))
    ensures forall e :: e in MyEvents(events, userId) && !ShowsOwnerControls(e, userId) ==>
              userId in e.attendees
  {
    FilterOfFilter(events, Owned(userId), Involves(userId));
  }

  class DashboardPage {
    var userEvents: seq<Event>
    var navigatedTo: Option<string>

    constructor ()
      ensures userEvents == [] && navigatedTo == None
    {
      userEvents := [];
      navigatedTo := None;
    }

    /** The first effect: without a user, go to `/login` and fetch nothing;
        with one, fetch the events. */
    method OnUserChange(user: Option<User>, catalog: EventStore, fetched: seq<Event>, rejected: bool)
      modifies this, catalog
      ensures userEvents == old(userEvents)
      ensures user.None? ==>
                navigatedTo == Some("/login") &&
                catalog.events == old(catalog.events) && catalog.isLoading == old(catalog.isLoading)
      ensures user.Some? ==>
                navigatedTo == old(navigatedTo) && !catalog.isLoading &&
                catalog.events == if rejected then old(catalog.events) else fetched
    {
      if user.None? {
        navigatedTo := Some("/login");
        return;
      }
      catalog.FetchEvents(fetched, rejected);
    }

    /** The second effect: recompute the list only when there are events and
        a user; otherwise the previous list stays. */
    method OnEventsOrUserChange(events: seq<Event>, user: Option<User>)
      modifies this
      ensures navigatedTo == old(navigatedTo)
      ensures |events| > 0 && user.Some? ==> userEvents == MyEvents(events, user.value.id)
      ensures !(|events| > 0 && user.Some?) ==> userEvents == old(userEvents)
    {
      if |events| > 0 && user.Some? {
        userEvents := MyEvents(events, user.value.id);
      }
    }
  }
}
