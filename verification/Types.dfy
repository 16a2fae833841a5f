/** The two record types of the application, `User` and `Event`, and their
    partial forms (`Partial<User>`, `Partial<Event>`) with the object-spread
    merge `{ ...record, ...partial }`. An optional property of the record is an
    `Option`; in a partial, `None` means the key is absent. */
module Types {
  import opened Wrappers

  /** Why a store operation's promise rejects. `Rejected` is the generic
      failure of the awaited (simulated network) step; the others are the
      errors the stores throw themselves. */
  datatype StoreError = Rejected | EmailInUse | UserNotFound | NoUserLoggedIn {
    /** The message of the thrown `Error`, for the errors the stores raise. */
    function Message(): string
      requires !Rejected?
    {
      match this
      case EmailInUse => "Email already in use"
      case UserNotFound => "User not found"
      case NoUserLoggedIn => "No user logged in"
    }
  }

  datatype AgendaItem = AgendaItem(time: string, activity: string)

  datatype Speaker = Speaker(name: string, role: string, bio: Option<string>, avatar: Option<string>)

  datatype User = User(
    id: string,
    name: string,
    email: string,
    role: Option<string>,
    bio: Option<string>,
    location: Option<string>,
    joinedDate: string,
    eventsAttended: Option<int>,
    connections: Option<int>,
    interests: Option<seq<string>>,
    twitter: Option<string>,
    linkedin: Option<string>,
    website: Option<string>,
    avatar: Option<string>)

  datatype Event = Event(
    id: string,
    title: string,
    description: string,
    date: string,
    startTime: string,
    endTime: string,
    location: string,
    isVirtual: bool,
    virtualLink: Option<string>,
    imageUrl: Option<string>,
    category: string,
    organizer: string,
    organizerId: string,
    attendees: seq<string>,
    price: Option<real>,
    externalUrl: Option<string>,
    createdAt: Option<string>,
    agenda: Option<seq<AgendaItem>>,
    speakers: Option<seq<Speaker>>)

  datatype UserPatch = UserPatch(
    id: Option<string>,
    name: Option<string>,
    email: Option<string>,
    role: Option<string>,
    bio: Option<string>,
    location: Option<string>,
    joinedDate: Option<string>,
    eventsAttended: Option<int>,
    connections: Option<int>,
    interests: Option<seq<string>>,
    twitter: Option<string>,
    linkedin: Option<string>,
    website: Option<string>,
    avatar: Option<string>)

  datatype EventPatch = EventPatch(
    id: Option<string>,
    title: Option<string>,
    description: Option<string>,
    date: Option<string>,
    startTime: Option<string>,
    endTime: Option<string>,
    location: Option<string>,
    isVirtual: Option<bool>,
    virtualLink: Option<string>,
    imageUrl: Option<string>,
    category: Option<string>,
    organizer: Option<string>,
    organizerId: Option<string>,
    attendees: Option<seq<string>>,
    price: Option<real>,
    externalUrl: Option<string>,
    createdAt: Option<string>,
    agenda: Option<seq<AgendaItem>>,
    speakers: Option<seq<Speaker>>)

  /** `{}` as a partial user. */
  const NoUserChanges: UserPatch :=
    UserPatch(None, None, None, None, None, None, None, None, None, None, None, None, None, None)

  /** `{}` as a partial event. */
  const NoEventChanges: EventPatch :=
    EventPatch(None, None, None, None, None, None, None, None, None, None,
               None, None, None, None, None, None, None, None, None)

  /** The value a spread yields for an optional property: the partial's when its key is present. */
  function Override<T>(patch: Option<T>, current: Option<T>): Option<T> {
    if patch.Some? then patch else current
  }

  /** `{ ...u, ...p }` */
  function MergeUser(u: User, p: UserPatch): User {
    User(
      p.id.GetOr(u.id), p.name.GetOr(u.name), p.email.GetOr(u.email),
      Override(p.role, u.role), Override(p.bio, u.bio), Override(p.location, u.location),
      p.joinedDate.GetOr(u.joinedDate),
      Override(p.eventsAttended, u.eventsAttended), Override(p.connections, u.connections),
      Override(p.interests, u.interests), Override(p.twitter, u.twitter),
      Override(p.linkedin, u.linkedin), Override(p.website, u.website), Override(p.avatar, u.avatar))
  }

  /** `{ ...e, ...p }` */
  function MergeEvent(e: Event, p: EventPatch): Event {
    Event(
      p.id.GetOr(e.id), p.title.GetOr(e.title), p.description.GetOr(e.description),
      p.date.GetOr(e.date), p.startTime.GetOr(e.startTime), p.endTime.GetOr(e.endTime),
      p.location.GetOr(e.location), p.isVirtual.GetOr(e.isVirtual),
      Override(p.virtualLink, e.virtualLink), Override(p.imageUrl, e.imageUrl),
      p.category.GetOr(e.category), p.organizer.GetOr(e.organizer),
      p.organizerId.GetOr(e.organizerId), p.attendees.GetOr(e.attendees),
      Override(p.price, e.price), Override(p.externalUrl, e.externalUrl),
      Override(p.createdAt, e.createdAt), Override(p.agenda, e.agenda),
      Override(p.speakers, e.speakers))
  }

  /** Spreading an empty partial changes nothing, and spreading the same
      partial twice is spreading it once. */
  lemma MergeUserLaws(u: User, p: UserPatch)
    ensures MergeUser(u, NoUserChanges) == u
    ensures MergeUser(MergeUser(u, p), p) == MergeUser(u, p)
    ensures p.id == None ==> MergeUser(u, p).id == u.id
  {
  }

  /** Spreading an empty partial changes nothing, and spreading the same
      partial twice is spreading it once. */
  lemma MergeEventLaws(e: Event, p: EventPatch)
    ensures MergeEvent(e, NoEventChanges) == e
    ensures MergeEvent(MergeEvent(e, p), p) == MergeEvent(e, p)
    ensures p.id == None ==> MergeEvent(e, p).id == e.id
  {
  }
}
