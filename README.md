# Reel Mapper persistence core in Dafny

Reel Mapper saves restaurants that users share from Instagram. A share
extension on iOS posts the shared link to a FastAPI backend. The backend
records a *save event*, and a Celery worker turns it into a *saved
restaurant* (a `user_restaurants` row) in one of the user's lists or in
"Unsorted". This project models the backend's persistence logic and the
share extension's decisions, and proves what they promise.

- **The database** is a class `Store.Database` with one map per table:
  users, restaurants, lists, save events, saved restaurants and notes.
  - `Store.Constraints` gathers the uniqueness rules and the foreign keys
    the migrations declare.
  - Every endpoint writes through `Commit`. `Commit` applies a change when
    the constraints hold and rolls it back otherwise. A rejected commit
    becomes `Err(IntegrityError)`, the uncaught 500.
  - Every method keeps `Valid()`.
- **The schema** sits in a `Schema` object that the migrations change:
  - the list-name rule, exact or `LOWER(name)`;
  - the ondelete actions, the default or the declared CASCADE / RESTRICT /
    SET NULL.
- **A delete** (`CascadeDelete`) dooms the named row and every row CASCADE
  reaches. SET NULL then clears nullable keys. The delete is rejected when a
  surviving row still points at a doomed row.
- **The endpoints** are methods over the database:
  - the favorite and visited toggles and the note upsert (`RestaurantsEndpoint`);
  - list creation and moving a saved restaurant (`ListsEndpoint`);
  - the two deletes (`UserRestaurantsEndpoint`);
  - recording a share (`SaveEventsEndpoint`);
  - sign-in (`Deps`).
  The read-only endpoints (`Data`) are functions.
- **The worker** (`Worker`) takes an event from pending through processing
  to complete.
- **The share extension** (`ShareExtension`) covers the token freshness
  check, the request, the reply classification, the attachment choice and
  the screen state.

Three places where the code does not keep its own rules are stated as error
outcomes:
- A favorite or visited "on" toggle looks for the row only in the special
  list. The table is unique on (user, restaurant). So when the user already
  holds the restaurant elsewhere, the insert is rejected, and the
  "manual_toggle" save event stays behind (`RestaurantsEndpoint.ToggleSpecial`).
- `create_list` checks names exactly, while the index folds case (see
  Findings).
- `add_restaurant_to_list` declares `restaurant_id` as a required query
  parameter it never reads, and the app sends the id in the body only (see
  Findings).

GET /restaurants/{id} appears twice in the source, in `data.py` and in
`restaurants.py`, with the same code. `Data.FindRestaurant` models both.

## Model

| member | source | states |
|---|---|---|
| Models.ParseStatus | backend/app/models/save_event.py:25-29 | a stored status text reads back only as the state whose value it is |
| Models.StatusValueRoundTrip | backend/app/models/save_event.py:25-29 | each of the four states is stored as a text that reads back as that state, so the four values are distinct |
| InitialSchema.CreateOrderRespectsReferences | backend/alembic/versions/20240127_0001_initial_schema.py:22-89 | `upgrade` creates every table after each table its foreign keys reference |
| InitialSchema.DropOrderRespectsReferences | backend/alembic/versions/20240127_0001_initial_schema.py:92-100 | `downgrade` drops every table before each table it references |
| ListNameIndex.Lower | backend/alembic/versions/add_case_insensitive_list_name_constraint.py:29 | LOWER keeps the length and folds each letter on its own |
| ListNameIndex.LowerIdempotent | backend/alembic/versions/add_case_insensitive_list_name_constraint.py:29 | folding twice is folding once |
| ListNameIndex.ListsNamed | backend/app/api/v1/endpoints/lists.py:24-26 | the exact-name lookup finds nothing iff no list of the user has exactly that name |
| ListNameIndex.LowerRuleImpliesExactRule | backend/alembic/versions/add_case_insensitive_list_name_constraint.py:21-43 | every set of lists the LOWER(name) index admits, the exact constraint admits too |
| ListNameIndex.ExactRuleAdmitsCaseVariants | backend/alembic/versions/add_case_insensitive_list_name_constraint.py:26-32 | the index is strictly stronger: "Pizza" and "pizza" of one user pass the old rule only |
| ListNameIndex.AtMostOneNamed | backend/alembic/versions/20240127_0001_initial_schema.py:56 | under either rule a (user, exact name) lookup finds at most one list |
| ListNameIndex.AddListKeepsNamesUnique | backend/alembic/versions/20240127_0001_initial_schema.py:56 | adding a list keeps the name rule iff no list of its user collides with it |
| CascadeDelete.AfterDeleteKeepsForeignKeys | backend/alembic/versions/add_cascade_delete_behavior.py:20-124 | every delete the database permits leaves every non-null foreign key pointing at an existing row, under either set of actions |
| CascadeDelete.AfterDeleteKeepsUniqueness | backend/alembic/versions/add_cascade_delete_behavior.py:20-124 | a delete never creates a duplicate under any uniqueness rule |
| CascadeDelete.DeleteUserCascades | backend/alembic/versions/add_cascade_delete_behavior.py:33-124 | deleting a user removes the user's lists, save events, saved restaurants and notes |
| CascadeDelete.DeleteRestaurantBlockedIffSaved | backend/alembic/versions/add_cascade_delete_behavior.py:42-49 | a restaurant delete is rejected iff some user has saved it |
| CascadeDelete.DeleteRestaurantRemovesNotes | backend/alembic/versions/add_cascade_delete_behavior.py:104-111 | deleting a restaurant removes it and its notes and nothing else |
| CascadeDelete.DeleteListNeverBlocked | backend/alembic/versions/add_cascade_delete_behavior.py:51-89 | a list delete is never rejected |
| CascadeDelete.DeleteListSetsNull | backend/alembic/versions/add_cascade_delete_behavior.py:51-89 | deleting a list moves its saved restaurants to Unsorted and clears the target of its save events, removing no such row |
| CascadeDelete.DeleteEventBlockedIffSource | backend/alembic/versions/add_cascade_delete_behavior.py:60-67 | a save event delete is rejected iff the event is the source of a saved restaurant |
| CascadeDelete.DefaultRulesRejectReferencedRows | backend/alembic/versions/add_cascade_delete_behavior.py:127-161 | with the default actions a delete is rejected iff some row references the deleted one, and it removes that one row only |
| Store.AddListAccepted | backend/alembic/versions/20240127_0001_initial_schema.py:49-57 | a new list is accepted iff its user exists and no list of the user collides under the rule in force |
| Store.SetEventAccepted | backend/alembic/versions/20240127_0001_initial_schema.py:60-73 | a save event is accepted iff its user and target list exist |
| Store.SetSavedAccepted | backend/alembic/versions/20240127_0001_initial_schema.py:76-89 | a saved restaurant is accepted iff its four references exist and no other row has its (user, restaurant) |
| Store.SetNoteAccepted | backend/app/models/note.py:7-13 | a note is accepted iff its user and restaurant exist and no other note has its (user, restaurant) |
| Store.SetUserAccepted | backend/app/models/user.py:10-11 | a user is accepted iff no other user has the email or the non-null Clerk id |
| Store.AddRestaurantAccepted | backend/alembic/versions/20240127_0001_initial_schema.py:41-45 | a restaurant is accepted iff its place id is null or unused |
| Store.DeleteSavedRowNeverBlocked | backend/app/api/v1/endpoints/user_restaurants.py:27-28 | removing a saved restaurant is never rejected, under either set of actions |
| Store.DeleteSavedRowAlone | backend/app/api/v1/endpoints/user_restaurants.py:27-28 | removing a saved restaurant removes that row and nothing else |
| Store.DeleteAccepted | backend/alembic/versions/add_cascade_delete_behavior.py:20-161 | a permitted delete keeps every constraint and adds no key |
| Store.Database.constructor | backend/alembic/versions/20240127_0001_initial_schema.py:22-89 | a fresh database is empty and valid, with the exact name rule and the default actions |
| Store.Database.FreshId | backend/app/models/save_event.py:16 | a new primary key is used by no row of any table |
| Store.Database.Commit | backend/alembic/versions/20240127_0001_initial_schema.py:22-89 | a commit applies the change iff every constraint holds afterwards, and rolls it back otherwise |
| Store.Database.InsertList | backend/app/api/v1/endpoints/lists.py:29-34 | inserting a list succeeds iff its user exists and no name collides; the new key is fresh |
| Store.Database.Delete | backend/alembic/versions/add_cascade_delete_behavior.py:20-161 | a delete succeeds iff not blocked, and leaves exactly the database after the cascade |
| Store.Database.UpgradeListNameIndex | backend/alembic/versions/add_case_insensitive_list_name_constraint.py:21-32 | creating the index succeeds iff no user holds two lists that differ only in case |
| Store.Database.DowngradeListNameIndex | backend/alembic/versions/add_case_insensitive_list_name_constraint.py:35-43 | restoring the exact constraint always succeeds |
| Store.Database.UpgradeCascadeRules | backend/alembic/versions/add_cascade_delete_behavior.py:20-124 | the declared actions take effect and every constraint still holds |
| Store.Database.DowngradeCascadeRules | backend/alembic/versions/add_cascade_delete_behavior.py:127-161 | the default actions take effect and every constraint still holds |
| RestaurantsEndpoint.RowsIn | backend/app/api/v1/endpoints/restaurants.py:51-58 | the lookup by list finds nothing iff the restaurant is not in the user's list |
| RestaurantsEndpoint.GetOrCreateSpecialList | backend/app/api/v1/endpoints/restaurants.py:29-40 | the result is the user's only list of that exact name; an existing one changes nothing; creating fails only on a name collision, with an IntegrityError |
| RestaurantsEndpoint.SwitchOff | backend/app/api/v1/endpoints/restaurants.py:60-63 | the row in the special list is deleted and nothing else changes |
| RestaurantsEndpoint.SwitchOn | backend/app/api/v1/endpoints/restaurants.py:64-84 | one "manual_toggle" event is committed; the row is added iff the restaurant exists and the user holds it nowhere; the event stays either way |
| RestaurantsEndpoint.ToggleIn | backend/app/api/v1/endpoints/restaurants.py:50-84 | a restaurant in the list is switched off: exactly its row goes, nothing else changes, and the answer is false; otherwise exactly one "manual_toggle" event e is added and, on success, exactly the row of the restaurant in the list pointing at e, and the answer is true; the flag is the membership afterwards; rows of other lists are untouched |
| RestaurantsEndpoint.NewListHoldsNothing | backend/app/api/v1/endpoints/restaurants.py:34-38 | a special list just created holds no row, so the first toggle on it is an "on" |
| RestaurantsEndpoint.ToggleSpecial | backend/app/api/v1/endpoints/restaurants.py:42-84 | the toggle on the special list, case by case: a missing list whose name collides gives IntegrityError and no change; a missing list otherwise becomes exactly one new list, and the toggle is an "on"; an existing list stays, and an "off" removes exactly the row while an "on" adds exactly the event e it returns; a successful "on" adds exactly the row of the restaurant in the special list pointing at e and keeps every other row; the flag is the flipped membership; an "on" fails with IntegrityError when the user holds the restaurant elsewhere |
| RestaurantsEndpoint.ToggleFavorite | backend/app/api/v1/endpoints/restaurants.py:42-84 | the same case-by-case toggle on "Favorites", with the new event and the one added row stated exactly |
| RestaurantsEndpoint.ToggleVisited | backend/app/api/v1/endpoints/restaurants.py:86-127 | the same case-by-case toggle on "Visited", with the new event and the one added row stated exactly; rows of every other list, Favorites included, are untouched |
| RestaurantsEndpoint.SaveNotes | backend/app/api/v1/endpoints/restaurants.py:129-160 | afterwards exactly one note of the user on the restaurant exists, with the new content; other notes and tables are unchanged |
| RestaurantsEndpoint.SpecialListIdempotent | backend/app/api/v1/endpoints/restaurants.py:29-40 | a second call returns the same list and leaves the database as the first call left it |
| RestaurantsEndpoint.ToggleFavoriteTwice | backend/app/api/v1/endpoints/restaurants.py:60-84 | a first toggle that succeeds makes the second succeed with the opposite answer; membership is restored, but an "on" first toggle leaves one extra save event |
| RestaurantsEndpoint.OffLeavesRestaurantFree | backend/app/api/v1/endpoints/restaurants.py:60-63 | after an "off" the restaurant still exists and, (user, restaurant) being unique, the user holds it nowhere |
| Worker.ContainsIffOccurs | backend/app/worker.py:49 | the substring test holds iff the pattern occurs at some position |
| Worker.ChooseCandidate | backend/app/worker.py:43-51 | the candidate is one of the two mock restaurants |
| Worker.CandidateChoice | backend/app/worker.py:43-51 | Sushi Nakazawa in Tokyo iff the caption contains "Sushi"; a missing caption gives Joe's Pizza in New York |
| Worker.ResolveRestaurant | backend/app/worker.py:60-79 | the result has that exact name and city; an existing match changes nothing; otherwise exactly the mock restaurant is inserted |
| Worker.ResolveTwice | backend/app/worker.py:60-79 | two resolutions insert at most one restaurant |
| Worker.FinalizeSave | backend/app/worker.py:81-115 | a duplicate only marks the event complete with "Restaurant already saved"; otherwise one row in the target list, pointing at the event, is added; either way the user holds the restaurant exactly once |
| Worker.MarkDuplicate | backend/app/worker.py:92-100 | only the event changes, to complete with the duplicate message |
| Worker.SaveNew | backend/app/worker.py:102-114 | the new row and the completed event are committed together, and never rejected |
| Worker.BeginProcessing | backend/app/worker.py:38-40 | only the event changes, to processing |
| Worker.ExtractInfo | backend/app/worker.py:29-58 | an unknown id changes nothing; otherwise the state while resolving is exactly the old one with the event processing, and the final tables are the old ones with the candidate reused or the mock restaurant added, and then either the event complete with "Restaurant already saved" (the user held it) or one row of it in the target list pointing at the event, with the event complete; users, lists and notes are unchanged and no event becomes failed |
| Worker.ProcessEvent | backend/app/worker.py:38-58 | the same for an event that exists: the exact processing state and the exact final tables |
| Worker.ResolveAndFinalize | backend/app/worker.py:42-58 | the candidate is reused or created, and then either the duplicate is marked or exactly one row in the target list pointing at the event is added; the event ends complete |
| Worker.EffectKeepsOtherEvents | backend/app/worker.py:38-58 | the worker completes its event, leaves every other event as it was and marks none failed |
| Worker.TaskQueue.constructor | backend/app/worker.py:19 | the broker starts with no job |
| Worker.TaskQueue.Enqueue | backend/app/api/v1/endpoints/save_events.py:35 | exactly one job, carrying the id, is appended |
| Deps.FirstMatch | backend/app/api/deps.py:60-87 | the except clause that handles an exception is the first one that catches it |
| Deps.AuthErrorMapping | backend/app/api/deps.py:60-87 | a ValueError gives 500 and every other failure 401; expired reads "Token has expired", another invalid token "Invalid token: " and its message |
| Deps.ExpiredClauseOrderMatters | backend/app/api/deps.py:60-73 | an expired token is also an invalid token, and only the clause order makes it read "Token has expired" |
| Deps.FindOrCreateUser | backend/app/api/deps.py:98-147 | found by Clerk id unchanged; otherwise 400 without an email, linked by email, or created; the result always has Clerk id `sub` |
| Deps.LinkUser | backend/app/api/deps.py:126-134 | the legacy user gets the Clerk id, and the token's name only when its own is empty |
| Deps.CreateUser | backend/app/api/deps.py:136-147 | one new user with the Clerk id, email and name and no password, never rejected |
| Deps.GetCurrentUser | backend/app/api/deps.py:35-147 | verification failures map to their HTTP errors, a missing subject to 401 and a missing email (for a new Clerk id) to 400, each with no change; only the users table ever changes; a result has Clerk id `sub` |
| Deps.SignInTwice | backend/app/api/deps.py:98-104 | a second sign-in with the same payload returns the same user and leaves the database as the first left it |
| ListsEndpoint.CreateList | backend/app/api/v1/endpoints/lists.py:13-36 | 400 for an exact duplicate; otherwise the list is inserted iff no name collides under the rule in force, else IntegrityError |
| ListsEndpoint.CreateListCheckVersusIndex | backend/app/api/v1/endpoints/lists.py:24-27 | the exact check implies the exact rule, but a case variant passes it and clashes under the index |
| ListsEndpoint.CaseVariantSlipsPastCheck | backend/app/api/v1/endpoints/lists.py:24 | "pizza" passes the check next to "Pizza" yet clashes under LOWER(name) |
| ListsEndpoint.CreateCaseVariant | backend/app/api/v1/endpoints/lists.py:24-34 | with the index in force a case variant ends in IntegrityError and changes nothing |
| ListsEndpoint.ListsNamedIgnoringCase | backend/app/models/list.py:7-9 | the case-folded lookup finds nothing iff no name clashes under LOWER(name) |
| ListsEndpoint.CreateListCaseInsensitive | backend/app/models/list.py:7-9 | with a LOWER(name) check every clash is the 400 and the insert is never rejected |
| ListsEndpoint.AddRestaurantToList | backend/app/api/v1/endpoints/lists.py:38-74 | without the query parameter restaurant_id the request is answered 422 and nothing changes; with it, 400 without a restaurant id in the body, 404 when not saved, otherwise only that row's list changes, and it succeeds iff the list exists |
| ListsEndpoint.AppAddsRestaurantToList | backend/app/api/v1/endpoints/lists.py:42-43 | the app's call, which sends the restaurant id in the body only, is always answered 422 and changes nothing |
| ListsEndpoint.AddRestaurantFromBody | backend/app/api/v1/endpoints/lists.py:56-74 | with the id read from the body only: 400 without it, 404 when not saved; otherwise only that row's list changes, and it succeeds iff the list exists |
| ListsEndpoint.MoveIntoForeignList | backend/app/api/v1/endpoints/lists.py:70-74 | nothing stops moving a saved restaurant into another user's list |
| UserRestaurantsEndpoint.DeleteUserRestaurant | backend/app/api/v1/endpoints/user_restaurants.py:11-29 | the row is removed iff it exists and is the user's, else 404 and no change; other users' rows are untouched |
| UserRestaurantsEndpoint.DeleteUserRestaurantByRestaurant | backend/app/api/v1/endpoints/user_restaurants.py:32-50 | the user's one row for the restaurant is removed, else 404; other users' rows are untouched |
| UserRestaurantsEndpoint.RemoveRow | backend/app/api/v1/endpoints/user_restaurants.py:27-28 | exactly that row is removed |
| UserRestaurantsEndpoint.DeleteTwice | backend/app/api/v1/endpoints/user_restaurants.py:20-28 | repeating a successful delete gives 404 |
| SaveEventsEndpoint.CreateSaveEvent | backend/app/api/v1/endpoints/save_events.py:11-37 | a pending "instagram" event with the URL, caption and target list is committed and its id queued, answered 202; a missing target list gives IntegrityError, no change and no job |
| SaveEventsEndpoint.SaveAndExtract | backend/app/api/v1/endpoints/save_events.py:30-35 | a missing target list records and queues nothing; otherwise the queued job runs, and the tables are the recorded event followed by the worker's exact effect: the candidate, by name and city, saved once for the user and the event complete; the database stays valid |
| Data.HomeData | backend/app/api/v1/endpoints/data.py:15-55 | the home lists are exactly the user's lists, and the unsorted rows exactly the user's rows with no list |
| Data.HomeShowsOnlyOwnRows | backend/app/api/v1/endpoints/data.py:24-50 | the home screen depends on the user's own lists and rows only |
| Data.FindRestaurant | backend/app/api/v1/endpoints/data.py:57-68 | the restaurant with the id, or 404 iff there is none |
| Data.MapsUrlRoundTrip | backend/app/api/v1/endpoints/data.py:86-89 | the link reads back as the place when there is a non-empty place id, and as the coordinates otherwise |
| Data.PlaceUrlRoundTrip | backend/app/api/v1/endpoints/data.py:89 | the place link reads back as that place id |
| Data.CoordinatesUrlRoundTrip | backend/app/api/v1/endpoints/data.py:87 | the coordinate link reads back as the two coordinates |
| Data.ExportToGoogleMaps | backend/app/api/v1/endpoints/data.py:70-89 | 404 iff the id is unknown; otherwise a link that reads back as the restaurant's destination |
| ShareExtension.GetAuthToken | ShareExtension/ShareViewController.swift:132-144 | a token iff an expiry exists, is strictly later than now, and a token is stored |
| ShareExtension.TokenFreshness | ShareExtension/ShareViewController.swift:136-138 | a token usable now was usable earlier, and none is usable from its expiry on |
| ShareExtension.BuildRequest | ShareExtension/ShareViewController.swift:88-98 | a POST to /api/v1/save-events with a 30 s timeout, a body of the URL with null caption and list, and a Bearer header that reads back as the token |
| ShareExtension.BearerRoundTrip | ShareExtension/ShareViewController.swift:91 | the credentials after "Bearer " are the token |
| ShareExtension.NatToStringRoundTrip | ShareExtension/ShareViewController.swift:125 | the decimal rendering of a status code reads back as that code |
| ShareExtension.Classify | ShareExtension/ShareViewController.swift:108-126 | success iff the reply is HTTP 200 or 202 |
| ShareExtension.ServerErrorNamesCode | ShareExtension/ShareViewController.swift:124-126 | any status other than 200, 202 and 401 is a failure whose message names that code |
| ShareExtension.AuthFailuresOnScreen | ShareExtension/ShareViewController.swift:120-126 | a backend sign-in failure shows "Server error (500)" for a ValueError and "Please log in to Reel Mapper" otherwise |
| ShareExtension.FirstUrlAttachment | ShareExtension/ShareViewController.swift:55-69 | the chosen attachment conforms to "public.url" and none before it does; none means none conforms |
| ShareExtension.SendOnlyFirstUrlWithFreshToken | ShareExtension/ShareViewController.swift:48-98 | a request goes out only with a fresh token and carries the first URL attachment's URL |
| ShareExtension.ShareIsAccepted | ShareExtension/ShareViewController.swift:94-121 | a share with a fresh token for a signed-in user adds exactly one pending "instagram" event for the URL under a new id, queues exactly that id, and is shown as success |
| ShareExtension.ShareViewController.constructor | ShareExtension/ShareViewController.swift:15-46 | the view starts spinning with "Saving to Reel Mapper..." and nothing sent |
| ShareExtension.ShareViewController.ShowSuccess | ShareExtension/ShareViewController.swift:146-155 | the check mark and "Saved to Reel Mapper!", the indicator stopped and hidden, closing after 1 s |
| ShareExtension.ShareViewController.ShowError | ShareExtension/ShareViewController.swift:157-166 | the cross mark and the message, the indicator stopped and hidden, closing after 2 s |
| ShareExtension.ShareViewController.SaveToBackend | ShareExtension/ShareViewController.swift:75-130 | without a fresh token an error is shown and nothing is sent; otherwise exactly the built request is sent |
| ShareExtension.ShareViewController.HandleReply | ShareExtension/ShareViewController.swift:108-127 | the screen shows the classified outcome |
| ShareExtension.ShareViewController.ExtractAndSaveUrl | ShareExtension/ShareViewController.swift:48-73 | no item, no URL attachment and an unloadable URL each show their error; otherwise the first URL attachment is saved |

## Left out

- Timestamps (`created_at`, `updated_at`): no modelled operation reads them.
- Floating point: latitude and longitude are kept as the text Python prints for the float, positional ("-74.006") or with an exponent ("1e-05"). The mock coordinates are that text.
- LOWER is modelled on ASCII letters only. PostgreSQL's locale-dependent case folding is not modelled.
- Primary keys are naturals from a counter, not random UUIDs. Path parameters that are not valid UUIDs are not modelled.
- Sessions, `refresh`, async/await and SQL building: each commit is one atomic map update.
- A delete is one atomic step. Whether PostgreSQL checks RESTRICT on `source_event_id` before a user-delete cascade removes the rows is not modelled: RESTRICT and NO ACTION are treated alike.
- The Celery broker is a queue of event ids. Redis, retries, `acks_late` and the sync engine are not modelled. Logging is not modelled.
- Token verification (backend/app/core/security.py) is an oracle: its outcome, a payload or an exception, is a parameter.
- Pydantic validation and `HttpUrl` normalisation: the URL is the text the endpoint stores.
- Routing: backend/app/api/v1/router.py does not mount the restaurants router, and main.py is not part of this model. The endpoints are modelled as written. Of FastAPI's request validation only the required query parameter of POST /lists/{list_id}/restaurants is modelled (see Findings).
- The eager-loaded `restaurant` inside each home row is not modelled; the row's restaurant id is.
- The `is_favorite` / `is_visited` columns are not modelled: no modelled code reads or writes them.
- Share extension: UIKit layout, `URLSession`, `UserDefaults`, timers and the asynchronous `loadItem`.
  - The stored values, the clock, the loaded URL and the reply are parameters.
  - The scheduled close is recorded as its delay.
  - Status codes are naturals.
- ShareExtension.ShareViewController.SaveToBackend: the "Invalid API URL" and "Failed to prepare request" branches are not modelled. The base URL is a constant that parses, and the body always serialises.
- ShareExtension.Classify: the transport error is modelled as its description text.
- Deps.GetCurrentUser: for a linked or created user it states which case applies; the full new row is stated by Deps.FindOrCreateUser.

## Findings

| source | as written | input that shows it | evidently intended | confidence | as-written member | corrected member |
|---|---|---|---|---|---|---|
| backend/app/api/v1/endpoints/lists.py:24 | the duplicate check compares names exactly, while the index from add_case_insensitive_list_name_constraint.py:29 compares LOWER(name) | a user holding a list "Pizza" creates "pizza": the check passes, the index rejects the insert, and the client gets a 500 | the check compares LOWER(name), as backend/app/models/list.py:9 says the application does, so every clash is the 400 | not executed | ListsEndpoint.CreateCaseVariant | ListsEndpoint.CreateListCaseInsensitive |
| backend/app/api/v1/endpoints/lists.py:43 | `restaurant_id: str` is neither in the path nor given a default, so FastAPI makes it a required query parameter and answers 422 before the handler runs; the handler reads the id from the body (line 57) | the app's call from APIClient.addRestaurantToList, which posts {"restaurant_id": ...} to /api/v1/lists/{id}/restaurants with no query string: 422 "Field required", nothing moves | the id is taken from the body alone, so a saved restaurant moves into an existing list | not executed | ListsEndpoint.AppAddsRestaurantToList | ListsEndpoint.AddRestaurantFromBody |
