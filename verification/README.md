# Web3 Events UG, modelled in Dafny

This project models the client-side core of the Web3 Events UG site, a React
application for a Ugandan Web3 community: its three context stores and the
pages that read and drive them.

- **Stores.**
  - The events store (`EventsContext`) holds the event list and a loading flag. It fetches, creates, updates, deletes and looks up events.
  - The user store (`UserContext`) holds the signed-in user, a seeded catalog of users and a loading flag. It signs users in and out, registers them, looks them up and updates the profile.
  - The wallet store (`WalletContext`) holds the simulated wallet connection.
  - The user store and the wallet store persist their state in `localStorage`.
- **Views.**
  - The events list filters the catalog by search text, category and location.
  - The featured section shows the first six events.
  - The connect-wallet button shortens the address.
  - The dashboard and the profile page show filtered event lists.
  - The event detail page has a local attend toggle.
  - The create-event and login pages validate their forms.
  - The community page searches members and discussions.
- **Demo data.** The user-catalog generator `generateMockUsers`.

How the model is built:

- Every store is a Dafny `class` whose fields are its React state slots. Each event handler or async operation is one method.
- The dashboard, profile, event detail, create-event and login pages are classes too. Their fields are the state slots their handlers set: the result list, the looked-up user or event, the attending flag, the loading flag, the error message and the navigation target.
- Form inputs and view-only state are not fields. The login page's `email` and `password` and the create-event form are arguments of `HandleSubmit`. The community page's `searchTerm` is an argument of its filter functions, so that page has no class. The login page's `showPassword` and the community page's `activeTab` only change what is displayed and are not modelled.
- The data transforms behind the handlers are functions: `find`, `filter`, `map`, `Set` de-duplication, object spread, `||` defaults and `includes`. Lemmas state what the source promises about those functions, and the methods are specified by them.
- Each awaited latency step takes a `rejected` flag. A failure there is the generic error path, which the stores' `finally` blocks and the pages' `catch` blocks handle.
- The clock, `Math.random`, `Number.parseFloat`, the JSON encoding of the stored user and the fetched demo events are all parameters.

Modules:

- `Wrappers`: `Option`, `Result`.
- `Seqs`: generic list operations.
- `Text`: ASCII lower-casing, `includes`, decimal numbers.
- `Types`: the record types and the spread merge.
- `Storage`: `localStorage`.
- `MockData`: `generateMockUsers`.
- `EventsCatalog`, `Identity`, `Wallet`: the three stores.
- `WalletButton`, `EventsList`, `FeaturedEvents`: the components.
- `Dashboard`, `Profile`, `EventDetail`, `CreateEvent`, `Login`, `Community`: the pages.

Two behaviours of `updateEvent` follow the code:

- **The result can be `undefined`.** `updateEvent` returns the lookup of the id after the merge, cast to `Event`. That lookup is `undefined` when the id is unknown, and also when the partial renames the event to another id. The model returns an `Option` and proves both cases (`EventsCatalog.UpdateResult`).
- **`createEvent` cannot fail by itself.** Its only failure is the rejected latency step.

## Model

| member | source | states |
|---|---|---|
| Seqs.FilterCounts | src/context/EventsContext.tsx:130 | `filter` keeps each passing element exactly as many times as it occurs in the input and drops every other one |
| Seqs.FilterIsSubseq | src/context/EventsContext.tsx:130 | the filtered list is an order-preserving subsequence of the input |
| Types.MergeUserLaws | src/context/UserContext.tsx:146 | spreading an empty partial over a user changes nothing, spreading the same partial twice equals spreading it once, and the id survives a partial without `id` |
| Types.MergeEventLaws | src/context/EventsContext.tsx:106 | the same three spread laws for events |
| Storage.LocalStorage.GetItem | src/context/UserContext.tsx:46 | `getItem` yields a value exactly when the key is present, and then the stored one |
| Storage.LocalStorage.SetItem | src/context/UserContext.tsx:72 | `setItem` overwrites one key and leaves the others |
| Storage.LocalStorage.RemoveItem | src/context/UserContext.tsx:123 | `removeItem` drops one key and leaves the others |
| MockData.MockUsersShape | src/utils/mockData.ts:3-9 | `generateMockUsers(count)` yields exactly `count` users; user `i` has id `user-(i+1)`, name `User (i+1)` and email `user(i+1)@gmail.com`, and no role or counters |
| MockData.MockUsersDistinct | src/utils/mockData.ts:4-7 | no two generated users share an id or an email |
| EventsCatalog.NewEvent | src/context/EventsContext.tsx:66-84 | the new event's id is `event-` followed by the clock value; each text field is the supplied value when truthy and its default otherwise (`""`, the current date, `10:00`, `12:00`, `Other`, `Unknown`); `isVirtual` holds only for a supplied `true`; attendees default to empty; price defaults to 0 |
| EventsCatalog.FindByIdFacts | src/context/EventsContext.tsx:54 | the lookup is empty exactly when no event has the id; otherwise it is the first event with that id |
| EventsCatalog.PrependShadows | src/context/EventsContext.tsx:86 | after prepending, a lookup of the new id finds the new event even if an older event has that id; other lookups are unchanged |
| EventsCatalog.UpdateMatchingFacts | src/context/EventsContext.tsx:104-111 | the update merges the partial into exactly the events with that id and keeps the length, the order and all other events |
| EventsCatalog.UpdateResult | src/context/EventsContext.tsx:104-112 | the returned event is the merge of the first match; it is `undefined` for an unknown id or when the partial renames the event |
| EventsCatalog.RemoveByIdFacts | src/context/EventsContext.tsx:130 | after deletion no event has the id, every other event remains as often as before and in order, deleting twice equals deleting once, and deleting an absent id changes nothing |
| EventsCatalog.EventStore.FetchEvents | src/context/EventsContext.tsx:37-50 | the list becomes the fetched events; on failure it is unchanged and the error is swallowed; loading ends false |
| EventsCatalog.EventStore.CreateEvent | src/context/EventsContext.tsx:59-94 | on success the built event is prepended and returned, and a lookup of its id finds it; on failure the list is unchanged and the error propagates; loading ends false |
| EventsCatalog.EventStore.UpdateEvent | src/context/EventsContext.tsx:96-121 | the list becomes the merged list and the result is the lookup of the id in it; on failure nothing changes |
| EventsCatalog.EventStore.DeleteEvent | src/context/EventsContext.tsx:123-137 | the list loses every event with the id; an absent id is no error |
| Identity.NewMember | src/context/UserContext.tsx:94-102 | a registered user gets id `user-` followed by the clock value, the given name and email, role `Community Member`, and 0 events attended and 0 connections |
| Identity.FindByEmailFacts | src/context/UserContext.tsx:65-69 | the email lookup is empty exactly when no user has that email; otherwise it is a catalog user with that email |
| Identity.RegisterThenLogin | src/context/UserContext.tsx:90-106 | if no catalog user has the email, then after appending the new member a lookup by that email finds exactly that member |
| Identity.RegisterTakesEmail | src/context/UserContext.tsx:89-104 | after registration the email is in use, so a second registration with it is refused |
| Identity.ReplaceByIdFacts | src/context/UserContext.tsx:152 | the catalog update replaces exactly the users with the old id, keeps the rest in place, and is the identity when no user has it |
| Identity.RestoreRoundTrip | src/context/UserContext.tsx:45-55 | a user saved under `user` is restored as the signed-in user; without the entry the signed-in user is kept |
| Identity.RestoreDiscardsCorrupt | src/context/UserContext.tsx:48-53 | an entry that does not parse is removed and the signed-in user is kept; a second restore then changes nothing |
| Identity.UserStore.SeedUsers | src/context/UserContext.tsx:39-42 | the catalog becomes the 20 generated users |
| Identity.UserStore.RestoreSession | src/context/UserContext.tsx:45-55 | the signed-in user and storage become what the restore step computes from the saved entry |
| Identity.UserStore.Login | src/context/UserContext.tsx:57-80 | the first user with the exact email is signed in and saved, whatever the password; no match fails with `User not found` and leaves user and storage unchanged; loading ends false |
| Identity.UserStore.Register | src/context/UserContext.tsx:82-114 | a used email fails with `Email already in use` and changes nothing; otherwise the new member is appended, signed in and saved, and the email lookup finds it |
| Identity.UserStore.Logout | src/context/UserContext.tsx:116-130 | the user is signed out and the `user` entry removed; on failure nothing changes |
| Identity.UserStore.UpdateUser | src/context/UserContext.tsx:136-161 | with no signed-in user it fails with `No user logged in`; otherwise the merged user is signed in, saved, and replaces the catalog entries with the old id |
| Wallet.HexValue | src/context/WalletContext.tsx:53 | reading a hex digit back gives the nibble that `toString(16)` wrote |
| Wallet.MockAddressFacts | src/context/WalletContext.tsx:49-54 | the generated address is `0x` and forty lower-case hex digits that spell the forty random draws in order |
| Wallet.RestoreAfterConnect | src/context/WalletContext.tsx:31-41 | restoring from what `connect` saved gives a connected session with the same address and balance `0.0 ETH` |
| Wallet.RestoreNeedsBothEntries | src/context/WalletContext.tsx:32-40 | after `disconnect`, or with either saved entry missing, restoring leaves the wallet disconnected |
| Wallet.ConnectTwice | src/context/WalletContext.tsx:60-61 | a second `connect` overwrites the first address in storage |
| Wallet.WalletStore.Restore | src/context/WalletContext.tsx:31-41 | the wallet reconnects only when the flag is `"true"` and a non-empty address is saved |
| Wallet.WalletStore.Connect | src/context/WalletContext.tsx:43-68 | the generated address, balance `1.5 ETH` and connected state are set, and both entries are written; on failure nothing changes |
| Wallet.WalletStore.Disconnect | src/context/WalletContext.tsx:70-87 | all three fields are cleared and both entries removed; on failure nothing changes |
| WalletButton.FormatAddressFacts | src/components/ConnectWalletButton.tsx:33-35 | an address of ten or more characters is shortened to its first six and last four characters around `...`; an empty address becomes `...` |
| WalletButton.FormatMockAddress | src/components/ConnectWalletButton.tsx:33-46 | the label of a generated address has 13 characters: `0x`, four hex digits, `...`, and the address's last four hex digits |
| WalletButton.Button | src/components/ConnectWalletButton.tsx:39-61 | the address button appears exactly when connected and shows the shortened address (`...` for none); otherwise the connect button shows a spinner while loading; both are disabled while loading |
| WalletButton.ConnectWalletButton.HandleConnect | src/components/ConnectWalletButton.tsx:11-20 | the wallet becomes connected with the generated address and storage is written; a failure is swallowed; loading ends false |
| WalletButton.ConnectWalletButton.HandleDisconnect | src/components/ConnectWalletButton.tsx:22-31 | the wallet is disconnected and its entries removed; a failure is swallowed; loading ends false |
| EventsList.FilteredEventsFacts | src/components/EventsList.tsx:26-40 | the filtered list keeps the input order; an event is in it exactly when the search term, the category and the location all match |
| EventsList.NoFilterShowsAll | src/components/EventsList.tsx:27-37 | an empty search with category and location unset or `All` shows every event |
| EventsList.PlaceSelection | src/components/EventsList.tsx:37 | selecting a named place keeps only in-person events held there |
| EventsList.VirtualSelection | src/components/EventsList.tsx:36-37 | selecting `Virtual` keeps the virtual events, plus in-person events whose location is literally `Virtual` |
| EventsList.CategoriesFacts | src/components/EventsList.tsx:18 | the category options are `All` and then every occurring category, each once, in order of first occurrence |
| EventsList.LocationsFacts | src/components/EventsList.tsx:19-23 | the location options are `All`, `Virtual`, and every in-person location, each once, virtual events contribute none |
| EventsList.LocationsOrder | src/components/EventsList.tsx:19-23 | the in-person locations appear in the options in order of first occurrence |
| FeaturedEvents.ShownIsPrefix | src/components/FeaturedEvents.tsx:12-38 | the regular cards are positions 1 to 5 (at most five); the featured card, present exactly when the list is non-empty, comes first; together they are exactly the first `min(6, n)` events |
| Dashboard.MyEventsFacts | src/pages/DashboardPage.tsx:29-31 | the user's list keeps the catalog order; an event is in it exactly when the user organizes or attends it |
| Dashboard.ControlsOnlyForOwnEvents | src/pages/DashboardPage.tsx:172 | the dashboard events that carry the Edit and Cancel controls are exactly the catalog events the user organizes, in catalog order and multiplicity; every listed event without them is one the user attends |
| Dashboard.DashboardPage.OnUserChange | src/pages/DashboardPage.tsx:17-24 | with no user the page goes to `/login` and does not touch the events store; otherwise the events are fetched |
| Dashboard.DashboardPage.OnEventsOrUserChange | src/pages/DashboardPage.tsx:26-34 | the list is recomputed only when there are events and a user; otherwise the previous list stays |
| Profile.FreshProfilesShowZeros | src/pages/ProfilePage.tsx:127-131 | a counter the user record lacks is shown as 0: a seeded user and a newly registered member both show 0 attended and 0 connections, and a user with a counter shows its value |
| Profile.Render | src/pages/ProfilePage.tsx:45-131 | the page shows a spinner exactly while loading, and `User Not Found` exactly when loading is over and no user was found; otherwise it shows the event count, the counters, the role and bio defaults, the own-profile flag (a current user with the same id) and the empty-list note |
| Profile.OrganizedEventsFacts | src/pages/ProfilePage.tsx:40 | the profile list keeps the catalog order, holds exactly the events the user organizes, and is part of that user's dashboard list |
| Profile.UnknownIdNotFound | src/pages/ProfilePage.tsx:53-66 | an id no user has gives no user, and the page shows `User Not Found` |
| Profile.OwnProfileAfterLookup | src/pages/ProfilePage.tsx:68 | looking up one's own id gives one's own profile; a visitor who is not signed in never has one |
| Profile.ProfilePage.LoadData | src/pages/ProfilePage.tsx:18-35 | with a route id the user is looked up and the events fetched; loading always ends false |
| Profile.ProfilePage.OnEventsOrUserChange | src/pages/ProfilePage.tsx:37-43 | the list is recomputed only when there are events and a profile user; otherwise it stays |
| EventDetail.PriceOf | src/pages/EventDetailPage.tsx:229-232 | no price line without a price; `Free` exactly for price 0; the amount otherwise |
| EventDetail.ClickTwiceRestores | src/pages/EventDetailPage.tsx:37 | two clicks restore the attending flag |
| EventDetail.Render | src/pages/EventDetailPage.tsx:41-232 | a spinner exactly while loading and `Event Not Found` exactly for a missing event; otherwise the attendee count, the register or cancel label, the location line (`Virtual Event` for a virtual event, otherwise the location), the price label, and the join and external links shown only when truthy |
| EventDetail.AttendeeSeesCancel | src/pages/EventDetailPage.tsx:24-26 | a signed-in visitor listed among the attendees of the first catalog event with the id sees `Cancel Registration` after loading |
| EventDetail.EventDetailPage.Load | src/pages/EventDetailPage.tsx:18-28 | with a route id the event is looked up; for a signed-in visitor and a found event the flag says whether the visitor attends |
| EventDetail.EventDetailPage.HandleAttend | src/pages/EventDetailPage.tsx:30-39 | with no user the page redirects to login with this event as the target and keeps the flag; otherwise only the flag flips, and neither the event nor any store changes |
| CreateEvent.Validate | src/pages/CreateEventPage.tsx:64-78 | a form passes exactly when title, description, date and category are filled and the virtual link or the location is filled as the format needs; the first failing check gives its message |
| CreateEvent.ValidateIgnoresUncheckedFields | src/pages/CreateEventPage.tsx:64-78 | the times, price, image and external link never affect validation |
| CreateEvent.Payload | src/pages/CreateEventPage.tsx:86-92 | the partial event carries the form fields, the user as organizer and sole attendee, and the parsed price |
| CreateEvent.CreatedFromForm | src/pages/CreateEventPage.tsx:86-92 | for a validated form the created event is organized and attended by the user; its organizer is `Unknown` for an empty name; virtual events have a link and in-person ones a location; empty times get `10:00` and `12:00`; an unparsable price becomes 0 |
| CreateEvent.CreatorSeesEventOnDashboard | src/pages/CreateEventPage.tsx:86-94 | the created event heads the creator's dashboard list and shows the owner controls |
| CreateEvent.CreateEventPage.HandleSubmit | src/pages/CreateEventPage.tsx:55-101 | with no user the page goes to `/login`; a failed check shows its message; in both cases nothing is created; otherwise the event is prepended and the page goes to `/dashboard`, or shows the failure message; submitting ends false |
| Login.RedirectParam | src/pages/LoginPage.tsx:22-23 | the `redirect` parameter is present exactly when the query starts with it, and its value is all the text after `?redirect=` up to the first `&` or the end of the query |
| Login.RedirectTo | src/pages/LoginPage.tsx:23 | the target is the non-empty `redirect` value, and `/dashboard` otherwise |
| Login.LoginReturnsToEvent | src/pages/LoginPage.tsx:23-37 | the login URL built on an event page points to `/login`, and its query leads back to that event's page after sign-in |
| Login.NoRedirectGoesToDashboard | src/pages/LoginPage.tsx:23 | with no `redirect` parameter, or an empty one, the target is `/dashboard` |
| Login.LoginPage.HandleSubmit | src/pages/LoginPage.tsx:25-44 | an empty field shows `Please fill in all fields` and the store is not called; a failed login shows `Invalid email or password` and does not navigate; a successful one signs in the first user with that email, saves that user under `user` in `localStorage` and navigates to the target; once the store is asked, both the page's and the store's loading flags end false; the error is cleared first |
| Community.CommunityMembers | src/pages/CommunityPage.tsx:6-13 | twelve members, member `i` has id `user-(i+1)`, name `User (i+1)`, a role from the four roles and the fixed bio |
| Community.CommunityDiscussions | src/pages/CommunityPage.tsx:16-24 | five discussions, each with its numbered id and title and a category from the five categories |
| Community.MemberCountFacts | src/pages/CommunityPage.tsx:105 | the shown member count is at most the directory size, equals it for an empty search and exactly when every member matches, and ignores the case of the search term |
| Community.FilteredMembersFacts | src/pages/CommunityPage.tsx:30-34 | the member list keeps the given order; a member is in it exactly when the lower-cased term occurs in its lower-cased name or role |
| Community.FilteredDiscussionsFacts | src/pages/CommunityPage.tsx:36-40 | the discussion list keeps the given order; a discussion is in it exactly when the lower-cased term occurs in its lower-cased title or category |
| Community.EmptySearchKeepsAll | src/pages/CommunityPage.tsx:30-40 | an empty search keeps every member and every discussion |
| Community.SearchIgnoresCase | src/pages/CommunityPage.tsx:30-40 | a term and its lower-cased form select the same members and discussions |

## Left out

- Timing and concurrency. Each async operation is one atomic step; the latency timers and interleavings of concurrent calls are not modelled. In particular, `DashboardPage` calls `fetchEvents` without awaiting it, so the list it first reads may predate the fetch; the model performs the fetch before the list is recomputed. `ProfilePage` awaits `fetchEvents` in `loadData`. The stale `events` closure of `updateEvent` and the stale `users` closure of `register` are also not modelled: each operation reads the current state.
- Rendering, styling and routing. The JSX markup, the dashboard's tab state, the splash timer in `src/App.tsx`, and the pages that only present data (home, about, events) are not part of this model.
- Floating point. Prices are `real`. `Number.parseFloat` is a parameter that yields nothing for `NaN`, and the `$` amount formatting is not modelled.
- Text. Lower-casing and `includes` cover ASCII only, with no Unicode case mapping. Dates are opaque strings and `formatDate` is not part of this model.
- Clock, randomness and JSON are parameters. The create-event clock reads are one instant. `generateMockEvents` is not part of this model; fetched events are a parameter.
- Partial keys. A key present with an explicit `undefined` value in a partial is not modelled; a field of a partial is either absent or set.
- Login.RedirectParam: reads `redirect` only as the first query parameter and does not percent-decode or turn `+` into a space, which `URLSearchParams` does. `Login.LoginReturnsToEvent` therefore excludes ids with `&`, `+`, `%` or `#`.
- Identity.Restored: a `JSON.parse` that succeeds on text that is not a user object is modelled as a parse failure.
- Community.CommunityMembers: the random draws are supplied as functions. The join date is the supplied text. A member's `eventsAttended` and a discussion's `replies` are their draws as given, with no bound. A discussion's author number and view count take their draws modulo 12 and 100. The source's ranges (below 10 and below 20 for the unreduced draws) are not enforced.
- The `handleChange` and `handleCheckboxChange` field setters of `CreateEventPage` are not modelled separately: the form is a value given to `HandleSubmit`.
