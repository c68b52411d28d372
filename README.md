# Eventi backend: membership and ownership bookkeeping

This project models the bookkeeping core of the Eventi event-management
backend, an ASP.NET Core web API, in Dafny and proves properties of it. The
core covers three parts:

- **Subscription actions.** A signed-in user subscribes to an event,
  unsubscribes, saves or unsaves it. The organizer kicks, bans or unbans
  another user, and anyone pages through an event's attendees.
- **Event actions.** An organizer creates, cancels or edits an event. Anyone
  reads an event's details, the list of event ids, a page of them, or a page
  of one category's event ids.
- **Two helpers.** `Duration(TimeSpan)` splits a time span into days, hours
  and minutes. `ModelUtils.GetModelErrors` builds a 400 response body from a
  form's validation errors.

Every action is a chain of guards. The first guard that fails gives the
response: `NotFound`, `Unauthorized` or `BadRequest`. Otherwise the action
calls `Add` and `Remove` on the navigation lists:

- `Event.Attendees` and `Event.BanList`.
- `ApplicationUser.AttendedByUser`, `ApplicationUser.SavedEvents` and
  `ApplicationUser.OrganizedByUser`.
- `EventCategory.Events`.

**Entities.** `Event`, `ApplicationUser` and `EventCategory` are classes
whose list fields the action methods change in place.
`ApplicationDbContext` is a class that holds the three tables. Events are a
sequence in insertion order (see "## Left out"); users and categories are
maps keyed by id. The
tables hold the very objects that the navigation lists point to, as
Entity Framework's change tracker does.

**Outcomes.** An action is a method that returns a `Response`. Its
postcondition states the guard-by-guard outcome, the new contents of every
list it touches, and that a rejected call changes nothing. Its `modifies`
clause names the fields it may change: for example, only the attendee list
of the event with the given id.

**Invariants.** Two invariants describe a well-formed store:

- `Valid` holds that:
  - ids are unique keys;
  - `Organizer`/`OrganizedByUser` and `Category`/`Events` are the two ends
    of one relation each;
  - attendees and banned users are stored users;
  - the ban lists, attended lists and saved lists hold no duplicates.

  Every action keeps `Valid`.
- `Consistent` holds that:
  - the attendance relation is paired: a user attends an event in
    `Attendees` exactly when the event is in that user's `AttendedByUser`;
  - no attendee appears twice;
  - no banned user attends.

  Every action keeps `Consistent` except KickUser as written. That action
  removes the acting organizer from `Attendees` instead of the kicked user.
  The model keeps this defect and proves that it breaks the pairing of the
  two lists as the action leaves them. With every list loaded, as the model
  assumes (see "Persistence"), the shared join row of the many-to-many
  relation makes the committed effect that an attending organizer loses
  their own attendance. With the `Include`s as written, the organizer is not
  in the loaded `Attendees`, so line 138 has no committed effect unless the
  organizer kicks themself; see "## Findings".

**Paging.** All three paged queries share one clamp:
`GetRange(min(start, L), min(end, L))` with `L = max(n - 1, 0)`. This is
modelled as written. The end index is used as an element count. A page
never holds all n ≥ 1 items. A start and end that run past the list make
`GetRange` throw, which becomes `Thrown`, an uncaught exception.

**Values from outside.** The model takes these as parameters:

- the acting user (from the claims and `UserManager`);
- the new event's `Guid`;
- the clock reading for `DateAdded`;
- the URL that the blob upload returned;
- the request's model state.

**Data representation.**

- Dates are integers.
- Prices are reals.
- Locations are coordinate pairs.
- `TimeSpan` is a 64-bit tick count, and C#'s truncating `/` and `%` are
  written out.

## Model

| member | source | states |
|---|---|---|
| SubscriptionsController.GetSubscribersPage | Controllers/SubscriptionsController.cs:43-57 | NotFound for an unknown event; otherwise the ids of the clamped `GetRange` page of the attendees, in attendee order, or `Thrown` where `GetRange` throws |
| SubscriptionsController.Subscribe | Controllers/SubscriptionsController.cs:73-84 | NotFound, then Unauthorized for a banned user (checked first), then BadRequest when already attending; a rejected call changes nothing; otherwise the user is appended to `Attendees` and the event to `AttendedByUser`, only those two lists change (no capacity check), and both invariants are kept |
| SubscriptionsController.Unsubscribe | Controllers/SubscriptionsController.cs:101-110 | NotFound, then BadRequest when the event is not in the user's attended events; otherwise the first occurrence is removed on both sides, and in a consistent store the user is then on neither side |
| SubscriptionsController.SubscribeThenUnsubscribe | Controllers/SubscriptionsController.cs:79-80 | in a consistent store, a successful Subscribe followed by Unsubscribe succeeds and gives back both attendance lists exactly as they were |
| SubscriptionsController.KickUser | Controllers/SubscriptionsController.cs:130-143 | as written: Unauthorized when the event exists and the caller is not its organizer, before the event and subject NotFound checks, then BadRequest when the subject does not attend; on success the ACTING user is removed from `Attendees` and the event from the subject's `AttendedByUser`; `Valid` is kept, and in the lists as the action leaves them, kicking another attending user leaves that user in `Attendees` and breaks the pairing; with every list loaded, as the model assumes (see Persistence), the shared join row means that after the commit the subject does leave and an attending organizer loses their own attendance; with the `Include`s as written, line 138 has no committed effect when the organizer is not the subject |
| SubscriptionsController.KickEffect | Controllers/SubscriptionsController.cs:138-139 | the two `Remove`s as written keep `Valid` and, for a subject other than the caller, break the pairing |
| SubscriptionsController.KickUserCorrected | Controllers/SubscriptionsController.cs:130-143 | the same guards, with the subject removed from `Attendees`; both invariants are kept and the subject is afterwards on neither side |
| SubscriptionsController.BanUser | Controllers/SubscriptionsController.cs:166-187 | owner, event and subject checks in that order, then BadRequest for a self-ban and for an already banned subject; otherwise an attending subject is first removed on both sides, the subject is appended to `BanList`, and in a consistent store the subject no longer attends |
| SubscriptionsController.AddToBanList | Controllers/SubscriptionsController.cs:183 | appending a user who is not attending to a ban list keeps both invariants |
| SubscriptionsController.UnbanUser | Controllers/SubscriptionsController.cs:210-222 | owner, event and subject checks, then BadRequest unless the subject is banned; otherwise the subject leaves `BanList`, and only `BanList` changes, so attendance is untouched |
| SubscriptionsController.SaveEvent | Controllers/SubscriptionsController.cs:273-282 | NotFound, then BadRequest when already saved; otherwise the event is appended to `SavedEvents` and nothing else in the modelled lists changes (the one-to-many mapping is not modelled; see "## Left out") |
| SubscriptionsController.UnsaveEvent | Controllers/SubscriptionsController.cs:303-312 | NotFound, then BadRequest when not saved; otherwise the event is removed from `SavedEvents`, is no longer in it, and nothing else changes |
| SubscriptionsController.Enroll | Controllers/SubscriptionsController.cs:79-80 | the two `Add`s keep both invariants |
| SubscriptionsController.Disenroll | Controllers/SubscriptionsController.cs:105-106 | the two `Remove`s keep both invariants and, in a consistent store, remove the attendance altogether |
| EventsController.CreateEvent | Controllers/EventsController.cs:41-94 | an invalid form gives BadRequest with the error text; an unknown category gives BadRequest("Invalid category") and adds nothing; it succeeds exactly when both checks pass, and then a fresh event with the new id, the form's fields, the cover URL, no attendees, no bans and the caller as organizer is appended to the category's `Events`, to the caller's `OrganizedByUser` and to the table, where it is found under its id; both invariants are kept |
| EventsController.Publish | Controllers/EventsController.cs:60-86 | the object initializer, the cover and the three `Add`s give that event and keep both invariants |
| EventsController.FoundAtEnd | Controllers/EventsController.cs:86 | an event appended to a table that lacked its id is what the id lookup finds |
| EventsController.CancelEvent | Controllers/EventsController.cs:187-217 | Unauthorized only for an existing event the caller does not organize, NotFound for a missing one, and no change in either case; otherwise the first occurrence of the event is removed from the table, from its organizer's `OrganizedByUser` and from its category's `Events`, it is then in none of them, its id is no longer found, and both invariants are kept |
| EventsController.Withdraw | Controllers/EventsController.cs:199-208 | the three `Remove`s take the event out of all three lists and keep both invariants |
| EventsController.EditEvent | Controllers/EventsController.cs:242-271 | checks owner (only for an existing event), existence, category and form in that order, with no change when one fails; otherwise the event leaves the old category's `Events`, is last in the new one's (once, at the end, when the category is unchanged), takes the form's fields and the new category, and both invariants are kept |
| EventsController.Revise | Controllers/EventsController.cs:258-267 | the category move and the field assignments together keep both invariants |
| EventsController.Recategorise | Controllers/EventsController.cs:258-259 | `Remove` from the old category and `Add` to the new one, which may be the same list, keep both invariants |
| EventsController.Fill | Controllers/EventsController.cs:262-266 | the form's fields replace the event's own and no invariant is disturbed |
| EventsController.GetEvent | Controllers/EventsController.cs:100-131 | NotFound exactly for an unknown id; otherwise the details copy every field, with `NumberOfSubscribers` equal to the number of attendees |
| EventsController.GetEventsList | Controllers/EventsController.cs:137-150 | one id per stored event, in table order, every stored event's id included, no id twice in a keyed store |
| EventsController.KeyedIdsDistinct | Controllers/EventsController.cs:143-148 | with unique keys the ids of the table are all different |
| EventsController.GetEventsPage | Controllers/EventsController.cs:156-167 | the ids of the clamped page of the table, or `Thrown` where `GetRange` throws |
| EventsController.GetEventsInCategoryPage | Controllers/EventsController.cs:333-343 | NotFound for an unknown category; otherwise the clamped page of the category's event ids, or `Thrown` |
| Paging.Page | Controllers/SubscriptionsController.cs:49-53 | it throws exactly when an argument is negative or the clamped range runs past the end; an empty list gives an empty page; the page is the run of `min(end, L)` items from `min(start, L)` and never the whole of a non-empty list; from 0 with an end of at least n - 1 it is every item but the last |
| Lists.GetRange | Controllers/EventsController.cs:162 | `GetRange(index, count)` succeeds exactly for a non-negative range inside the list and then holds those `count` items |
| Lists.Remove | Controllers/SubscriptionsController.cs:105 | `Remove` shortens a list by one exactly when the element is present, keeps every other element and adds none |
| Lists.RemoveFirst | Controllers/EventsController.cs:199 | `Remove` cuts the list at the first index holding the element and keeps the order of the rest, so the table and category lists keep their order |
| Lists.FirstIndex | Controllers/EventsController.cs:199 | the index found holds the element and no earlier index does |
| Lists.RemoveCounts | Controllers/SubscriptionsController.cs:105 | `Remove` takes away exactly one copy of the element and nothing else |
| Lists.RemoveDistinct | Controllers/SubscriptionsController.cs:106 | removing from a list without duplicates removes the element altogether and keeps it free of duplicates |
| Lists.AppendDistinct | Controllers/SubscriptionsController.cs:77-80 | an `Add` guarded by `Contains` keeps a list free of duplicates |
| Lists.RemoveAfterAppend | Controllers/SubscriptionsController.cs:79-106 | `Add` then `Remove` of an absent element gives the list back |
| Entities.FindById | Controllers/SubscriptionsController.cs:45 | `SingleOrDefault` by id returns a stored event with that id, or null exactly when no stored event has it; the actions that use it require unique keys, where `SingleOrDefault` cannot throw |
| Entities.Ids | Controllers/SubscriptionsController.cs:53-54 | the keys of a list, one per element, in order: the user ids these lines collect, and, with the event key, the `Select(e => e.Id)` of EventsController.cs line 340 and the ids the loops at EventsController.cs lines 143-148 and 162-165 collect |
| Entities.ApplicationDbContext.FindEvent | Controllers/EventsController.cs:100-104 | the event stored under the id, or null exactly when no stored event has it |
| Entities.ApplicationDbContext.FindUser | Controllers/SubscriptionsController.cs:125 | `SingleOrDefault(u => u.Id == id)`: with unique keys, the user found is a stored user whose Id is the one asked for, and null means no stored user has that Id |
| Entities.ApplicationDbContext.FindCategory | Controllers/EventsController.cs:52-54 | `SingleOrDefaultAsync(c => c.Id == id)`: with unique keys, the category found is a stored category whose Id is the one asked for, and null means no stored category has that Id |
| Entities.ApplicationDbContext.UserNotStored | Controllers/SubscriptionsController.cs:125 | with unique keys, an id that is no key of the users table is no stored user's Id |
| Entities.ApplicationDbContext.CategoryNotStored | Controllers/EventsController.cs:52-54 | with unique keys, an id that is no key of the Categories table is no stored category's Id |
| Entities.ApplicationDbContext.CreateStep | Controllers/EventsController.cs:75-86 | appending a fresh event to the table, its organizer's list and its category's list keeps both invariants |
| Entities.ApplicationDbContext.CancelStep | Controllers/EventsController.cs:199-208 | removing an event from the three lists keeps both invariants and leaves it in none of them |
| Entities.ApplicationDbContext.MoveStep | Controllers/EventsController.cs:258-267 | moving an event between categories keeps the category relation two-sided and free of duplicates |
| Entities.Event.SetCover | Controllers/EventsController.cs:78-82 | a cover is set only when a file was uploaded |
| Entities.Event.Apply | Controllers/EventsController.cs:262-266 | the form's title, location, date, price and description replace the event's |
| Durations.FromTimeSpan | Models/Duration.cs:9-14 | days are the whole days counted toward zero and fit in an `int`; for a non-negative span hours are in 0..23 and minutes in 0..59, for a negative one all three are at most 0; days·1440 + hours·60 + minutes is the span's whole minutes, truncated toward zero |
| Durations.ComponentsOf | Models/Duration.cs:11-13 | the same bounds and whole-minute identity for a tick count of either sign |
| ModelUtils.GetModelErrors | Utilities/ModelUtils.cs:7-17 | the nested loops build every message followed by "\n", entries in order and errors in order within each; the body is empty exactly when no entry has an error, its length is the sum of (message length + 1), and a non-empty body ends with "\n" |
| ModelUtils.LinesShape | Utilities/ModelUtils.cs:14 | the length of the lines, when they are empty, and that they end with "\n" |
| ModelUtils.LinesAppend | Utilities/ModelUtils.cs:10-16 | the lines of two runs of messages are the first run's lines followed by the second's |
| ModelUtils.MessagesAppend | Utilities/ModelUtils.cs:10-16 | the messages of two runs of entries are the first run's messages followed by the second's |
| ModelUtils.NoMessagesIffNoErrors | Utilities/ModelUtils.cs:9-17 | there is no message exactly when no entry holds an error |

## Left out

**Not modelled, with the reason:**

- **Acting user.** The claims lookup, `UserManager`, the `Unauthorized()` for a missing name claim and the status-500 "user should not be null" branches are framework plumbing. The acting user is a parameter, already a stored user.
- **Cancel's category lookup.** CancelEvent's status-500 branch for a missing category cannot happen in a store where every event's category is stored: the lookup by `Category.Id` finds the event's own category. The model uses the event's category directly.
- **Event list null check.** GetEventsList's `NotFound` for a null `ToList()` cannot happen, because `ToList` never returns null.
- **Search index.** Adding to and removing from the Lucene index after CreateEvent and CancelEvent are calls into a library. SearchEvent is not part of this model.
- **Blob storage.** The cover upload in CreateEvent and the cover deletion in CancelEvent are network I/O. The upload's URL is a parameter; the deletion has no effect in the model.
- **Persistence.** `SaveChangesAsync`, `UpdateAsync`, transactions and EF Core `Include` loading are persistence. Every collection is modelled as fully loaded. Each navigation list is modelled as the action leaves it in memory, before `SaveChangesAsync`; what the relational mapping does to the lists on commit is described in the next three lines.
- **Attendance join table.** `Attendees` and `AttendedByUser` are two separate lists in the model. Data/ApplicationDbContext.cs:21-22 maps them as one many-to-many relation, stored as one join row per pair. Removing a pair from either list deletes that row, so after the commit the two sides always agree. The model does not represent the shared row, and its pairing invariant is about the lists as an action leaves them.
- SubscriptionsController.SaveEvent: the one-to-many mapping of `SavedEvents` (Data/ApplicationDbContext.cs:27-28) is not modelled. It gives each event at most one saving user, so when B saves an event that A saved, the event leaves A's `SavedEvents` on commit. The model keeps it in both lists.
- SubscriptionsController.BanUser: the one-to-many mapping of `BanList` (Data/ApplicationDbContext.cs:25-26) is not modelled. It gives each user at most one ban list, so banning a user from a second event removes them from the first event's `BanList` on commit. The model keeps both bans.
- **Row order.** The model gives the Events table and every loaded list the order in which items were added, and keeps that order across requests. The source has no `OrderBy` on `_context.Events.ToList()` (EventsController.cs lines 137 and 156), on the included `Attendees` (SubscriptionsController.cs line 45) or on `category.Events` (EventsController.cs lines 333-335). The database returns these rows in an unspecified order, so the source does not fix which ids a page holds or where a new event's id appears in GetEventsList. Within a single request the model is exact: a page is the slice of the list in the order it was loaded.
- **Concurrency.** Parallel requests are not modelled; each action runs alone.
- **Values from outside.** `Guid.NewGuid`, `DateTime.Now`, `ToUniversalTime`, the `Point` geometry and the `Double` price are foreign or floating point:
  - The new id is a parameter, required not to be in use.
  - The clock reading, the date and the coordinates are given values.
  - The price is a real.
- **Model state.** `ModelState.IsValid` is taken as "no entry holds an error". The framework's own validation (the DataAnnotations attributes) is not modelled.
- **Dangling references after Cancel.** CancelEvent does not remove a cancelled event from its attendees' `AttendedByUser` or from users' `SavedEvents`. The model keeps that behaviour; its invariants do not require those lists to point only at stored events.
- **Other actions.** The full attendee list (GetSubscribers without paging), OrganizedEventList, SubscribedToEventList, SavedEventsList, UpdateCover, CategoryList and EventsInCategoryList are not part of this model. The account and user controllers, the event archiver, the ticket generator and the e-mail service are not part of this model either.

**Contracts and ordering:**

- **EditEvent's assignment order.** EditEvent assigns `Category` after the form fields. The model does the list move and the category assignment first, then the form fields. They are different fields of the same object, so the final state is the same.
- **SubscriptionsController.SubscribeThenUnsubscribe** is stated only for a store that satisfies the attendance invariant and for a Subscribe that succeeds. When the lists already hold duplicates or break the pairing, `Remove` after `Add` need not give them back.

## Findings

| source | as written | input that shows it | evidently intended | confidence | as-written member | corrected member |
|---|---|---|---|---|---|---|
| Controllers/SubscriptionsController.cs:138 | KickUser removes the acting user (the organizer) from `_event.Attendees` and removes the event from the subject's `AttendedByUser` | organizer O, who attends event E, kicks user S ≠ O, who also attends E: in the lists as the action leaves them, S is still in `E.Attendees`, E is not in `S.AttendedByUser`, and O is gone from `E.Attendees`; with every list loaded, as the model assumes (see Persistence), the commit deletes the join rows (E, S) and (E, O), so S does leave E and O loses their own attendance; with the `Include`s as written (lines 115 and 125), O is not in the loaded `E.Attendees`, so line 138 removes nothing and after the commit only S has left | `_event.Attendees.Remove(subject)`, so the subject leaves the event on both sides | not executed | SubscriptionsController.KickUser | SubscriptionsController.KickUserCorrected |
