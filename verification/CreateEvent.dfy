/** The event creation page (`CreateEventPage`): the form's checks, the
    partial event it hands to the event store and the page's outcome. */
module CreateEvent {
  import opened Wrappers
  import opened Types
  import opened Seqs
  import opened EventsCatalog
  import Dashboard

  const RequiredFieldsMissing := "Please fill in all required fields"
  const VirtualLinkMissing := "Please provide a link for the virtual event"
  const LocationMissing := "Please provide a location for the in-person event"
  const CreateFailed := "Failed to create event. Please try again."

  /** The category choices of the form's select. */
  const Categories: seq<string> :=
    ["Blockchain", "DeFi", "NFT", "DAO", "Web3", "Cryptocurrency", "Metaverse", "Gaming", "Developer", "Other"]

  /** The form's state: every input is text except the virtual checkbox. */
  datatype FormData = FormData(
    title: string,
    description: string,
    date: string,
    startTime: string,
    endTime: string,
    location: string,
    isVirtual: bool,
    virtualLink: string,
    category: string,
    price: string,
    imageUrl: string,
    externalUrl: string)

  /** The form as the page first shows it. */
  const EmptyForm := FormData("", "", "", "", "", "", false, "", "", "0", "", "")

  /** The checks of `handleSubmit` in their order; `None` lets the form through. */
  function Validate(f: FormData): (err: Option<string>)
    ensures err.None? <==>
              f.title != "" && f.description != "" && f.date != "" && f.category != "" &&
              (f.isVirtual ==> f.virtualLink != "") && (!f.isVirtual ==> f.location != "")
    ensures (f.title == "" || f.description == "" || f.date == "" || f.category == "") ==>
              err == Some(RequiredFieldsMissing)
    ensures f.title != "" && f.description != "" && f.date != "" && f.category != "" ==>
              (f.isVirtual && f.virtualLink == "" ==> err == Some(VirtualLinkMissing)) &&
              (!f.isVirtual && f.location == "" ==> err == Some(LocationMissing))
  {
    if f.title == "" || f.description == "" || f.date == "" || f.category == "" then Some(RequiredFieldsMissing)
    else if f.isVirtual && f.virtualLink == "" then Some(VirtualLinkMissing)
    else if !f.isVirtual && f.location == "" then Some(LocationMissing)
    else None
  }

  /** The times, the price, the image and the external link are never checked. */
  lemma ValidateIgnoresUncheckedFields(f: FormData, startTime: string, endTime: string, price: string, imageUrl: string, externalUrl: string)
    ensures Validate(f) == Validate(f.(startTime := startTime, endTime := endTime, price := price,
                                       imageUrl := imageUrl, externalUrl := externalUrl))
  {
  }

  /** The partial event passed to `createEvent`: the form's fields, the
      signed-in user as organizer and sole attendee, and `price` as the
      parsed number (`None` for a price text that does not parse). */
  function Payload(f: FormData, user: User, price: Option<real>): (p: EventPatch)
    ensures p.organizerId == Some(user.id) && p.organizer == Some(user.name)
    ensures p.attendees == Some([user.id]) && p.price == price
    ensures p.title == Some(f.title) && p.description == Some(f.description) && p.date == Some(f.date)
    ensures p.startTime == Some(f.startTime) && p.endTime == Some(f.endTime)
    ensures p.location == Some(f.location) && p.isVirtual == Some(f.isVirtual) && p.virtualLink == Some(f.virtualLink)
    ensures p.category == Some(f.category) && p.imageUrl == Some(f.imageUrl) && p.externalUrl == Some(f.externalUrl)
    ensures p.id == None && p.createdAt == None && p.agenda == None && p.speakers == None
  {
    EventPatch(None, Some(f.title), Some(f.description), Some(f.date), Some(f.startTime), Some(f.endTime),
               Some(f.location), Some(f.isVirtual), Some(f.virtualLink), Some(f.imageUrl), Some(f.category),
               Some(user.name), Some(user.id), Some([user.id]), price, Some(f.externalUrl), None, None, None)
  }

  /** The event the store builds from a form that passed the checks: the user
      organizes and attends it, the checked fields are copied as typed, a
      virtual event has a link and an in-person one a location, and the
      unchecked times fall back to the store's defaults when left empty. */
  lemma CreatedFromForm(f: FormData, user: User, price: Option<real>, nowMs: nat, nowIso: string)
    requires Validate(f).None?
    ensures var e := NewEvent(Payload(f, user, price), nowMs, nowIso);
      e.organizerId == user.id && e.attendees == [user.id] &&
      e.organizer == (if user.name != "" then user.name else "Unknown") &&
      e.title == f.title && e.description == f.description && e.date == f.date && e.category == f.category &&
      e.isVirtual == f.isVirtual && e.location == f.location && e.virtualLink == Some(f.virtualLink) &&
      (e.isVirtual ==> e.virtualLink.value != "") && (!e.isVirtual ==> e.location != "") &&
      e.startTime == (if f.startTime != "" then f.startTime else "10:00") &&
      e.endTime == (if f.endTime != "" then f.endTime else "12:00") &&
      e.price == Some(price.GetOr(0.0))
  {
  }

  /** The creator finds the new event at the top of their dashboard list,
      with the owner controls. */
  lemma CreatorSeesEventOnDashboard(f: FormData, user: User, price: Option<real>, nowMs: nat, nowIso: string, events: seq<Event>)
    ensures var e := NewEvent(Payload(f, user, price), nowMs, nowIso);
      var mine := Dashboard.MyEvents([e] + events, user.id);
      mine != [] && mine[0] == e && Dashboard.ShowsOwnerControls(e, user.id)
  {
    var e := NewEvent(Payload(f, user, price), nowMs, nowIso);
    assert ([e] + events)[0] == e;
    assert ([e] + events)[1..] == events;
  }

  class CreateEventPage {
    var error: string
    var isSubmitting: bool
    var navigatedTo: Option<string>

    constructor ()
      ensures error == "" && !isSubmitting && navigatedTo == None
    {
      error := "";
      isSubmitting := false;
      navigatedTo := None;
    }

    /** `handleSubmit`: a visitor who is not signed in goes to `/login`; a
        form that fails a check shows that check's message; otherwise the
        store creates the event and the page goes to `/dashboard`, or shows
        the failure message. `price` is `Number.parseFloat(formData.price)`. */
    method HandleSubmit(f: FormData, user: Option<User>, price: Option<real>, catalog: EventStore,
                        nowMs: nat, nowIso: string, rejected: bool)
      modifies this, catalog
      ensures user.None? ==>
                error == "" && navigatedTo == Some("/login") && isSubmitting == old(isSubmitting) &&
                catalog.events == old(catalog.events) && catalog.isLoading == old(catalog.isLoading)
      ensures user.Some? && Validate(f).Some? ==>
                error == Validate(f).value && navigatedTo == old(navigatedTo) && isSubmitting == old(isSubmitting) &&
                catalog.events == old(catalog.events) && catalog.isLoading == old(catalog.isLoading)
      ensures user.Some? && Validate(f).None? ==> !isSubmitting && !catalog.isLoading
      ensures user.Some? && Validate(f).None? && rejected ==>
                error == CreateFailed && navigatedTo == old(navigatedTo) && catalog.events == old(catalog.events)
      ensures user.Some? && Validate(f).None? && !rejected ==>
                error == "" && navigatedTo == Some("/dashboard") &&
                catalog.events == [NewEvent(Payload(f, user.value, price), nowMs, nowIso)] + old(catalog.events)
    {
      error := "";
      if user.None? {
        navigatedTo := Some("/login");
        return;
      }
      var check := Validate(f);
      if check.Some? {
        error := check.value;
        return;
      }
      isSubmitting := true;
      var r := catalog.CreateEvent(Payload(f, user.value, price), nowMs, nowIso, rejected);
      if r.Ok? {
        navigatedTo := Some("/dashboard");
      } else {
        error := CreateFailed;
      }
      isSubmitting := false;
    }
  }
}
