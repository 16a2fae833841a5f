/** The event detail page (`EventDetailPage`): the looked-up event, the
    visitor's registration toggle and the labels the page derives from the
    event. */
module EventDetail {
  import opened Wrappers
  import opened Types
  import opened EventsCatalog

  /** Where a visitor who is not signed in is sent from the register button. */
  function LoginRedirect(id: string): string {
    "/login?redirect=/events/" + id
  }

  /** The page's own route. */
  function EventPath(id: string): string {
    "/events/" + id
  }

  /** The price line: hidden when the event has no price, "Free" for 0,
      the amount otherwise. */
  datatype PriceLabel = NoPrice | Free | Amount(value: real)

  function PriceOf(price: Option<real>): (l: PriceLabel)
    ensures l.NoPrice? <==> price.None?
    ensures l.Free? <==> price == Some(0.0)
    ensures l.Amount? ==> price.Some? && l.value == price.value && l.value != 0.0
  {
    match price
    case None => NoPrice
    case Some(p) => if p == 0.0 then Free else Amount(p)
  }

  /** The location line. */
  function LocationText(e: Event): string {
    if e.isVirtual then "Virtual Event" else e.location
  }

  /** `isAttending` after one click on the register button: flipped for a
      signed-in visitor, kept for one who is sent to the login page. */
  function AfterClick(isAttending: bool, signedIn: bool): bool {
    if signedIn then !isAttending else isAttending
  }

  /** Two clicks by the same visitor bring the flag back. */
  lemma ClickTwiceRestores(isAttending: bool, signedIn: bool)
    ensures AfterClick(AfterClick(isAttending, signedIn), signedIn) == isAttending
  {
  }

  /** What the page shows. */
  datatype Screen =
    | Spinner
    | NotFound
    | Details(event: Event, location: string, attending: nat, button: string,
              price: PriceLabel, joinLink: Option<string>, externalLink: Option<string>)

  /** The rendered page for the catalog's loading flag and the page state. */
  function Render(isLoading: bool, event: Option<Event>, isAttending: bool): (s: Screen)
    ensures s.Spinner? <==> isLoading
    ensures s.NotFound? <==> !isLoading && event.None?
    ensures s.Details? ==>
              var e := event.value;
              s.event == e && s.attending == |e.attendees| &&
              (s.button == if isAttending then "Cancel Registration" else "Register for Event") &&
              s.location == LocationText(e) && s.price == PriceOf(e.price) &&
              (s.joinLink.Some? <==> e.isVirtual && e.virtualLink.Some? && e.virtualLink.value != "") &&
              (s.joinLink.Some? ==> s.joinLink == e.virtualLink) &&
              (s.externalLink.Some? <==> Truthy(e.externalUrl)) &&
              (s.externalLink.Some? ==> s.externalLink == e.externalUrl)
  {
    if isLoading then Spinner
    else if event.None? then NotFound
    else
      var e := event.value;
      Details(e, LocationText(e), |e.attendees|,
              if isAttending then "Cancel Registration" else "Register for Event",
              PriceOf(e.price),
              if e.isVirtual && Truthy(e.virtualLink) then e.virtualLink else None,
              if Truthy(e.externalUrl) then e.externalUrl else None)
  }

  class EventDetailPage {
    var event: Option<Event>
    var isAttending: bool
    /** `window.location.href` after a redirect, if any. */
    var location: Option<string>

    constructor ()
      ensures event == None && !isAttending && location == None
    {
      event := None;
      isAttending := false;
      location := None;
    }

    /** The effect on `[id, getEventById, user]`: look the event up and, for a
        signed-in visitor and a found event, mark whether they attend it. */
    method Load(id: string, catalog: EventStore, user: Option<User>)
      modifies this
      ensures location == old(location)
      ensures id == "" ==> event == old(event) && isAttending == old(isAttending)
      ensures id != "" ==> event == catalog.GetEventById(id)
      ensures id != "" && user.Some? && event.Some? ==> (isAttending <==> user.value.id in event.value.attendees)
      ensures !(id != "" && user.Some? && event.Some?) ==> isAttending == old(isAttending)
    {
      if id != "" {
        var found := catalog.GetEventById(id);
        event := found;
        if user.Some? && found.Some? {
          isAttending := user.value.id in found.value.attendees;
        }
      }
    }

    /** `handleAttend`: a visitor who is not signed in is sent to the login
        page with this event as the redirect; a signed-in one flips the
        local registration flag (nothing reaches the event store). */
    method HandleAttend(id: string, user: Option<User>)
      modifies this
      ensures event == old(event)
      ensures user.None? ==> location == Some(LoginRedirect(id)) && isAttending == old(isAttending)
      ensures user.Some? ==> location == old(location)
      ensures isAttending == AfterClick(old(isAttending), user.Some?)
    {
      if user.None? {
        location := Some(LoginRedirect(id));
        return;
      }
      isAttending := !isAttending;
    }

    function View(isLoading: bool): Screen
      reads this
    {
      Render(isLoading, event, isAttending)
    }
  }

  /** Loading a catalog event with the visitor among its attendees shows the
      "Cancel Registration" button; only the first event with the id counts. */
  lemma AttendeeSeesCancel(events: seq<Event>, id: string, me: User, k: nat)
    requires k < |events| && events[k].id == id && me.id in events[k].attendees
    requires forall i :: 0 <= i < k ==> events[i].id != id
    ensures FindById(events, id).Some?
    ensures Render(false, FindById(events, id), me.id in FindById(events, id).value.attendees).button == "Cancel Registration"
  {
    FindByIdFacts(events, id);
  }
}
