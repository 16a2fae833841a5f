/** The profile page (`ProfilePage`): the viewed user, the events that user
    organizes, the counters, and whether it is the visitor's own profile. */
module Profile {
  import opened Wrappers
  import opened Types
  import opened Seqs
  import opened EventsCatalog
  import opened Identity
  import Dashboard
  import MockData

  /** `event => event.organizerId === userId` */
  function OrganizedBy(userId: string): Event -> bool {
    (e: Event) => e.organizerId == userId
  }

  /** The profile's event list. */
  function OrganizedEvents(events: seq<Event>, userId: string): seq<Event> {
    Filter(events, OrganizedBy(userId))
  }

  /** `isOwnProfile`: `currentUser && currentUser.id === user.id` */
  predicate IsOwnProfile(currentUser: Option<User>, viewed: User) {
    currentUser.Some? && currentUser.value.id == viewed.id
  }

  /** `n || 0` for a counter: a missing value is shown as 0. */
  function Counter(n: Option<int>): int {
    if n.Some? then n.value else 0
  }

  /** What the page shows. */
  datatype Screen =
    | Spinner
    | NotFound
    | ProfileView(user: User, role: string, bio: string, eventCount: nat, attended: int,
                  connections: int, ownProfile: bool, emptyNote: Option<string>)

  /** The note under an empty "Organized Events" list. */
  function EmptyNote(own: bool, name: string): string {
    if own then "You haven't organized any events yet." else name + " hasn't organized any events yet."
  }

  /** The rendered page for the page state and the signed-in user. */
  function Render(isLoading: bool, user: Option<User>, userEvents: seq<Event>, currentUser: Option<User>)
    : (s: Screen)
    ensures s.Spinner? <==> isLoading
    ensures s.NotFound? <==> !isLoading && user.None?
    ensures s.ProfileView? ==>
              s.user == user.value && s.eventCount == |userEvents| &&
              s.attended == Counter(user.value.eventsAttended) &&
              s.connections == Counter(user.value.connections) &&
              TakenOrDefaulted(user.value.role, "Community Member", s.role) &&
              TakenOrDefaulted(user.value.bio, "No bio provided yet.", s.bio) &&
              (s.ownProfile <==> currentUser.Some? && currentUser.value.id == user.value.id) &&
              (s.emptyNote.Some? <==> userEvents == []) &&
              (s.emptyNote.Some? ==> s.emptyNote.value == EmptyNote(s.ownProfile, user.value.name))
  {
    if isLoading then Spinner
    else if user.None? then NotFound
    else
      var u := user.value;
      var own := IsOwnProfile(currentUser, u);
      ProfileView(u, OrElse(u.role, "Community Member"), OrElse(u.bio, "No bio provided yet."),
                  |userEvents|, Counter(u.eventsAttended), Counter(u.connections), own,
                  if userEvents == [] then Some(EmptyNote(own, u.name)) else None)
  }

  /** A counter the user record lacks is shown as 0: a seeded user, which
      has neither counter, and a newly registered member, whose counters
      start at 0, both show 0 attended and 0 connections; a user with a
      counter shows its value. */
  lemma FreshProfilesShowZeros(count: nat, clock: nat -> string, k: nat, name: string, email: string,
                               nowMs: nat, nowIso: string, viewed: User,
                               userEvents: seq<Event>, currentUser: Option<User>)
    requires k < count
    ensures var s := Render(false, Some(MockData.GenerateMockUsers(count, clock)[k]), userEvents, currentUser);
            s.ProfileView? && s.attended == 0 && s.connections == 0
    ensures var s := Render(false, Some(NewMember(name, email, nowMs, nowIso)), userEvents, currentUser);
            s.ProfileView? && s.attended == 0 && s.connections == 0
    ensures var s := Render(false, Some(viewed), userEvents, currentUser);
            s.ProfileView? &&
            (viewed.eventsAttended.Some? ==> s.attended == viewed.eventsAttended.value) &&
            (viewed.connections.Some? ==> s.connections == viewed.connections.value)
  {
    MockData.MockUsersShape(count, clock);
  }

  /** The profile list keeps the catalog order, holds exactly the events the
      user organizes, and is part of that user's dashboard list. */
  lemma OrganizedEventsFacts(events: seq<Event>, userId: string)
    ensures IsSubseq(OrganizedEvents(events, userId), events)
    ensures forall i :: 0 <= i < |events| ==>
              (events[i] in OrganizedEvents(events, userId) <==> events[i].organizerId == userId)
    ensures IsSubseq(OrganizedEvents(events, userId), Dashboard.MyEvents(events, userId))
  {
    var r := OrganizedEvents(events, userId);
    FilterIsSubseq(events, OrganizedBy(userId));
    forall i | 0 <= i < |events| && events[i] in r ensures OrganizedBy(userId)(events[i]) {
      var j :| 0 <= j < |r| && r[j] == events[i];
    }
    FilterStricter(events, OrganizedBy(userId), Dashboard.Involves(userId));
  }

  /** An id that no user has shows the "User Not Found" screen once loading is over. */
  lemma UnknownIdNotFound(users: seq<User>, id: string, userEvents: seq<Event>, currentUser: Option<User>)
    requires forall i :: 0 <= i < |users| ==> users[i].id != id
    ensures FindUserById(users, id) == None
    ensures Render(false, FindUserById(users, id), userEvents, currentUser) == NotFound
  {
    forall i | 0 <= i < |users| ensures !HasUserId(id)(users[i]) { }
  }

  /** A signed-in user viewing the profile of the catalog entry with their
      own id sees it as their own; a visitor who is not signed in never does. */
  lemma OwnProfileAfterLookup(users: seq<User>, me: User, viewed: User)
    ensures FindUserById(users, me.id) == Some(viewed) ==> IsOwnProfile(Some(me), viewed)
    ensures !IsOwnProfile(None, viewed)
  {
    if FindUserById(users, me.id) == Some(viewed) {
      var k :| FirstSatisfying(users, HasUserId(me.id), k) && users[k] == viewed;
      assert HasUserId(me.id)(users[k]);
    }
  }

  class ProfilePage {
    var user: Option<User>
    var userEvents: seq<Event>
    var isLoading: bool

    /** The page's initial state: no user yet, no events, loading. */
    constructor ()
      ensures user == None && userEvents == [] && isLoading
    {
      user := None;
      userEvents := [];
      isLoading := true;
    }

    /** `loadData()`: with a non-empty route id, look the user up and fetch
        the events; in every case stop loading. */
    method LoadData(id: string, identity: UserStore, catalog: EventStore, fetched: seq<Event>, rejected: bool)
      modifies this, catalog
      ensures !isLoading && userEvents == old(userEvents)
      ensures id != "" ==>
                user == identity.GetUserById(id) && !catalog.isLoading &&
                catalog.events == if rejected then old(catalog.events) else fetched
      ensures id == "" ==>
                user == old(user) && catalog.events == old(catalog.events) && catalog.isLoading == old(catalog.isLoading)
    {
      isLoading := true;
      if id != "" {
        user := identity.GetUserById(id);
        catalog.FetchEvents(fetched, rejected);
      }
      isLoading := false;
    }

    /** The filter effect: recompute only when there are events and a user. */
    method OnEventsOrUserChange(events: seq<Event>)
      modifies this
      ensures user == old(user) && isLoading == old(isLoading)
      ensures |events| > 0 && user.Some? ==> userEvents == OrganizedEvents(events, user.value.id)
      ensures !(|events| > 0 && user.Some?) ==> userEvents == old(userEvents)
    {
      if |events| > 0 && user.Some? {
        userEvents := OrganizedEvents(events, user.value.id);
      }
    }

    /** The page as rendered now. */
    function View(currentUser: Option<User>): Screen
      reads this
    {
      Render(isLoading, user, userEvents, currentUser)
    }
  }
}
