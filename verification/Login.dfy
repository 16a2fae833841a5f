/** The sign-in page (`LoginPage`): form checks, the call to the user store
    and where the visitor goes afterwards. */
module Login {
  import opened Wrappers
  import opened Types
  import opened Identity
  import EventDetail
  import Storage

  const FillInAllFields := "Please fill in all fields"
  const InvalidCredentials := "Invalid email or password"
  const DefaultRedirect := "/dashboard"

  /** The prefix of `s` before the first `c`, or all of `s` without one. */
  function TakeUntil(s: string, c: char): (r: string)
    ensures r <= s && c !in r
    ensures |r| < |s| ==> s[|r|] == c
  {
    if s == [] || s[0] == c then [] else [s[0]] + TakeUntil(s[1..], c)
  }

  /** `searchParams.get("redirect")` for a query string whose first parameter
      is `redirect`: its raw value, which ends at the next `&`. */
  function RedirectParam(search: string): (r: Option<string>)
    ensures r.Some? <==> "?redirect=" <= search
    ensures r.Some? ==> r.value <= search[10..] && '&' !in r.value
    ensures r.Some? ==> |r.value| == |search| - 10 || search[10 + |r.value|] == '&'
  {
    if "?redirect=" <= search then Some(TakeUntil(search[10..], '&')) else None
  }

  /** `searchParams.get("redirect") || "/dashboard"` */
  function RedirectTo(search: string): (url: string)
    ensures url != ""
    ensures RedirectParam(search).Some? && RedirectParam(search).value != "" ==> url == RedirectParam(search).value
    ensures RedirectParam(search).None? || RedirectParam(search).value == "" ==> url == DefaultRedirect
  {
    var p := RedirectParam(search);
    if p.Some? && p.value != "" then p.value else DefaultRedirect
  }

  /** The register button on an event page sends a visitor who is not signed
      in to `/login` with a query that brings them back to that event after
      signing in, for an id the query decoding leaves alone. */
  lemma LoginReturnsToEvent(id: string)
    requires forall i :: 0 <= i < |id| ==> id[i] !in "&+%#"
    ensures EventDetail.LoginRedirect(id)[..6] == "/login"
    ensures RedirectTo(EventDetail.LoginRedirect(id)[6..]) == EventDetail.EventPath(id)
  {
    var search := "?redirect=" + EventDetail.EventPath(id);
    var path := EventDetail.EventPath(id);
    assert EventDetail.LoginRedirect(id)[6..] == search;
    assert search[10..] == path;
    assert '&' !in path by {
      forall i | 0 <= i < |path| ensures path[i] != '&' {
        if i >= 8 { assert path[i] == id[i - 8]; }
      }
    }
    TakeUntilWhole(path, '&');
  }

  lemma {:induction false} TakeUntilWhole(s: string, c: char)
    requires c !in s
    ensures TakeUntil(s, c) == s
  {
    if s != [] {
      assert c !in s[1..];
      TakeUntilWhole(s[1..], c);
    }
  }

  /** With no `redirect` parameter, or an empty one, the visitor lands on the
      dashboard. */
  lemma NoRedirectGoesToDashboard(search: string)
    requires !("?redirect=" <= search) || search == "?redirect=" || (|search| > 10 && "?redirect=&" <= search)
    ensures RedirectTo(search) == DefaultRedirect
  {
    if "?redirect=" <= search && search != "?redirect=" {
      assert search[10..][0] == '&';
    }
  }

  class LoginPage {
    var error: string
    var isLoading: bool
    var navigatedTo: Option<string>

    constructor ()
      ensures error == "" && !isLoading && navigatedTo == None
    {
      error := "";
      isLoading := false;
      navigatedTo := None;
    }

    /** `handleSubmit`: an empty field stops before the store is asked; a
        failed sign-in shows the generic message; a successful one goes to
        the redirect target. */
    method HandleSubmit(email: string, password: string, search: string, store: UserStore, rejected: bool)
      modifies this, store, store.storage
      ensures email == "" || password == "" ==>
                error == FillInAllFields && navigatedTo == old(navigatedTo) && isLoading == old(isLoading) &&
                store.user == old(store.user) && store.users == old(store.users) &&
                store.isLoading == old(store.isLoading) && store.storage.entries == old(store.storage.entries)
      ensures email != "" && password != "" ==> !isLoading && !store.isLoading && store.users == old(store.users)
      ensures email != "" && password != "" && (rejected || FindByEmail(old(store.users), email).None?) ==>
                error == InvalidCredentials && navigatedTo == old(navigatedTo) &&
                store.user == old(store.user) && store.storage.entries == old(store.storage.entries)
      ensures email != "" && password != "" && !rejected && FindByEmail(old(store.users), email).Some? ==>
                error == "" && navigatedTo == Some(RedirectTo(search)) &&
                store.user == FindByEmail(old(store.users), email) &&
                store.storage.entries == old(store.storage.entries)[Storage.UserKey := store.encode(store.user.value)]
    {
      error := "";
      if email == "" || password == "" {
        error := FillInAllFields;
        return;
      }
      isLoading := true;
      var r := store.Login(email, password, rejected);
      if r.Ok? {
        navigatedTo := Some(RedirectTo(search));
      } else {
        error := InvalidCredentials;
      }
      isLoading := false;
    }
  }
}
