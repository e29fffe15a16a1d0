# Medical-camp registration bookkeeping, in Dafny

This project models the registration bookkeeping of the medical-camp
management server (`index.js`). The server keeps three MongoDB collections:
`camps`, `participants` and `users`. Its Express handlers update them one
step at a time:

- `POST /users` inserts a user unless one with the same email exists.
- `POST /add-camp` checks seven required fields, then inserts a camp whose
  `participantCount` is 0.
- `GET /popular-camps` returns the six camps with the most participants.
- `POST /participants` stores the request body as it is, then `$inc`s the
  referenced camp's counter.
- `PUT /participants/:id` applies the body as a `$set`.
- `PUT /confirm-registration/:id` `$set`s `confirmationStatus: 'Confirmed'`.
- `DELETE /cancel-registration/:id` refuses a paid-and-confirmed
  registration. Otherwise it deletes the record, then decrements the camp's
  counter.

The model is a `Store` class (`store.dfy`). Its map fields are these
collections, and each handler is a method that modifies them in place.
Documents are JSON values (`documents.dfy`). The records, the error replies
and the bookkeeping invariant are in `records.dfy`. The invariant says that
every camp's `participantCount` equals the number of participant records
whose `campId` names it. Register, cancel and confirm preserve it, and each
method's contract says so. Add-camp preserves it unless a participant
registered earlier already names the new camp's id. ObjectIds are a
timestamp, a per-process random value and a counter, so a client that has
seen one returned id can predict the next and register under it first. Then
the new camp starts at 0 with a registration already, and the invariant
breaks; `AddCamp`'s contract states both cases. A lemma shows that a profile edit
rewriting `campId` can break it. Another shows that a bare increment with no
new participant would break it. `/join-camp` would do that if its `ObjectId`
reference resolved; as written it replies 500 and changes nothing.

Four client scenarios (`DuplicateRegistrationsCounted`, `ConfirmTwice`,
`ConfirmedUnpaidCancels`, `PaidAndConfirmedIsLocked`) are derived from the
handlers' contracts alone:

- two identical registrations are both counted;
- a second confirm is refused;
- a confirmed but unpaid registration can be cancelled;
- a paid and confirmed one cannot be cancelled.

An idealised account of this workflow would reject duplicate registrations,
default the statuses and keep counters non-negative. The model follows what
the code does instead:

- Registration performs no duplicate `(email, campId)` check. It sets no
  default `confirmationStatus` or `paymentStatus`.
- `POST /users` gives no default role.
- The counter has no lower bound.
- `$inc` on a camp id that matches nothing does nothing.

Inputs that are not part of the code are parameters:

- The driver's parsing of hex ObjectId strings is the `parse` constant of
  the store. `ObjectId.isValid(s)` is taken to be `parse(s).Some?`.
- The id that `insertOne` generates is a parameter of each inserting
  method. Its precondition `Unused` is the driver's guarantee that no
  document already has that id. A stored `campId` may still name it.
- The clock reading `new Date()` is the `now` parameter of `AddCamp`.

## Model

| member | source | states |
|---|---|---|
| `CampStore.Store.UpsertUser` | index.js:53-73 | If some user's email equals the new user's email (a missing email counts as `null`), nothing is inserted and `insertedId` is `null`. Otherwise exactly one user is inserted under a fresh id, which is returned. Email uniqueness is preserved. |
| `Records.EmailTaken` | index.js:58-61 | `findOne({ email })` finds a user exactly when some user's email equals the query value. A `null` query (sent for a missing email) also finds users whose email is missing. |
| `Records.UpsertKeepsEmailsUnique` | index.js:58-68 | Inserting a user whose email no user has keeps all users' emails pairwise distinct. |
| `CampStore.Store.AddCamp` | index.js:76-125 | If any of the seven required fields is falsy, the reply is 400 "All fields are required." and the camps are unchanged. Otherwise exactly one camp is added under the new id, with `participantCount == 0`, and that id is returned. The count invariant is preserved when no participant already names the new id, and broken when one does. |
| `Records.NewCamp` | index.js:101-112 | The new camp carries the body's seven fields, a `participantCount` of 0, and the clock reading as `createdAt`. |
| `Records.CampBodyComplete` | index.js:89-97 | A body is complete exactly when each of `campName`, `image`, `campFees`, `dateTime`, `location`, `healthcareProfessional` and `description` is present and truthy. |
| `Documents.Truthy` | index.js:90-96 | A field is truthy exactly when it is present and is none of `null`, `""`, `0` and `false`. Arrays and objects count as truthy, even empty ones. |
| `Records.AddCampKeepsCounts` | index.js:102-115 | Adding a camp with count 0 under an id no participant names keeps every camp's count equal to its registrations. |
| `Records.AddCampUnderReferencedIdBreaksCounts` | index.js:102-115 | Adding a zero-count camp under an id that a stored participant's `campId` already names breaks the count invariant. |
| `CampStore.Store.MostPopular` | index.js:175-177 | Returns a camp of the given set whose `participantCount` is at least that of every other camp in the set. |
| `CampStore.Store.PopularCamps` | index.js:173-184 | Returns min(6, number of camps) distinct camp ids, in non-increasing `participantCount` order. No camp left out has a larger count than any camp returned. |
| `CampStore.Store.Register` | index.js:195-213 | The body is inserted verbatim under a fresh id, with no duplicate check. The store then holds exactly one more participant. The counter of the camp named by `campId` goes up by exactly 1, and all other camps are unchanged. If `campId` cannot be converted to an ObjectId, the insert stays and the reply is 500. The count invariant is preserved. |
| `Records.RegisterKeepsCounts` | index.js:195-208 | Inserting a participant and incrementing the camp it names keeps every camp's count equal to its registrations. |
| `Records.RegistrationsInsert` | index.js:200-206 | An inserted participant joins the registrations of the camp it names, and of no other camp. |
| `CampStore.Store.IncrementCount` | index.js:203-206 | The `$inc` on `participantCount` changes only the matched camp, by exactly `delta`. It does nothing when no camp matches. |
| `Records.Inc` | index.js:287-290 | The `$inc` leaves the set of camp ids and every unmatched camp unchanged. It adds `delta` to the matched camp's count, with no lower bound. |
| `Records.Target` | index.js:204 | A participant names camp `c` exactly when its stored `campId` field is a string that the driver parses to `c`. |
| `Documents.ObjectIdOf` | index.js:288 | `new ObjectId(x)` parses a valid hex string. It yields a fresh id that matches nothing for `undefined`, `null` or a number, and throws otherwise. |
| `CampStore.Store.UpdateProfile` | index.js:222-246 | An id string that is not a valid ObjectId gives 400 and changes nothing. Otherwise the record is replaced by its `$set` result exactly when that result differs from it, and that case is the only success. A missing record or a no-op update gives 404 "Participant not found or no changes made". A patch without `campId` preserves the count invariant. |
| `CampStore.Store.UpdateParticipant` | index.js:233-238 | The `$set` update reports `modified` exactly when the record exists and the update changes it. Only then is the record replaced. |
| `Documents.SetFields` | index.js:235 | After `$set`, every patched field holds the patch's value, every other field is kept, and the field set is the union. |
| `Documents.SetFieldsUnchangedIff` | index.js:238 | A `$set` leaves a record unchanged exactly when every patched field already holds the patched value. |
| `Records.SetWithoutCampIdKeepsCounts` | index.js:252-255 | A `$set` that does not write `campId` keeps every camp's count equal to its registrations. |
| `Records.ProfileEditCanBreakCounts` | index.js:233-236 | A profile `$set` that rewrites a counted participant's `campId` to `null` breaks the count invariant. |
| `CampStore.Store.Confirm` | index.js:248-265 | An id string that is not a valid ObjectId gives 500. Otherwise the call succeeds exactly when the record exists and is not yet `'Confirmed'`, and then sets that status and nothing else. A missing record and an already confirmed record both give 404 "Participant not found or already confirmed", with no change. Afterwards the record is confirmed. The count invariant is preserved. |
| `Records.IsConfirmed` | index.js:252-257 | A record is confirmed exactly when the `$set` of `confirmationStatus: 'Confirmed'` leaves it unchanged, so that `modifiedCount` is 0. |
| `Records.ConfirmChangesIffPending` | index.js:252-261 | The confirm `$set` modifies a record exactly when it is not yet confirmed. A second application changes nothing, so a repeated confirm reports 404. |
| `CampStore.Store.Cancel` | index.js:267-299 | An id string that is not a valid ObjectId gives 500 and changes nothing. A missing record gives 404 and changes nothing. A record with both `paymentStatus === 'Paid'` and `confirmationStatus === 'Confirmed'` gives 400 and changes nothing; either status alone does not block. Otherwise exactly that record is deleted, its camp's counter goes down by exactly 1, and every other record is unchanged. The count invariant is preserved. |
| `Records.Locked` | index.js:278 | A record is locked exactly when it is confirmed and its `paymentStatus` is the string `'Paid'`. Either status alone does not lock it. |
| `Records.ConfirmLocksExactlyPaid` | index.js:252-280 | Confirming a record locks it against cancellation exactly when it is already paid. |
| `Records.CancelKeepsCounts` | index.js:282-292 | Deleting a participant and decrementing the camp it names keeps every camp's count equal to its registrations. |
| `Records.RegistrationsRemove` | index.js:283-290 | A deleted participant leaves the registrations of the camp it named, and no other camp's. |
| `Records.BareIncrementBreaksCounts` | index.js:366-369 | Incrementing a camp's counter without creating a participant breaks the count invariant. `/join-camp` would do this if its `ObjectId` reference resolved; as written it replies 500 and changes nothing. |

## Left out

- HTTP plumbing is not modelled: Express routing, CORS, JSON body parsing, `dotenv`, the root route and `app.listen`. Neither are the MongoDB connection and its start-up race (index.js:1-51, 378-380).
- The database's own failures (the `catch` branches reached by a failed `insertOne`, `find` or `updateOne`) are not modelled. The only 500s modelled are those raised by `new ObjectId(...)` on a malformed id.
- Concurrency is not modelled. The handlers run one at a time, so the `deletedCount == 0` branch of the cancel handler (index.js:293-295) cannot be reached in the model.
- Documents.ObjectIdOf: an object carrying an `id`, or a 12-byte buffer, is treated as throwing. The model also assumes `ObjectId.isValid` agrees with the constructor on strings. The real parsing belongs to the driver and is the `parse` parameter.
- A request body that brings its own `_id` is not modelled: `insertOne` always uses the driver's fresh id.
- `$set` field paths with dots, writes to `_id`, and `$`-prefixed keys (all errors or nested updates in MongoDB) are not modelled. Neither is an empty `$set`.
- Records.EmailTaken compares whole values. MongoDB's match of a scalar against an array field is not modelled.
- CampStore.Store.UpsertUser: an `email` that is an object with `$`-prefixed keys (`{"$exists": true}`, `{"$in": []}`) acts as a query operator in `findOne`. The model compares it as a literal value instead, so it can insert where the server replies "user already exists", and the reverse. On such inputs the server does not keep emails unique, unlike `UsersUnique` here.
- Documents.Value: objects are unordered maps. MongoDB compares embedded documents field by field in order, so a `$set` that reorders an embedded object's fields counts as modified there (200) and as unchanged here (404).
- `parseFloat(campFees)` and `new Date(dateTime)` (index.js:105-106) store the raw values: floating point and date parsing are not modelled. Numbers are reals, and bit patterns and precision are not modelled.
- Success messages are not modelled, nor documents as the endpoints return them. `PopularCamps` returns camp ids, and the handlers return ids or `()`.
- The pass-through list endpoints `/camps`, `/available-camps`, `/participants` (GET) and `/registered-camps/:email` are not modelled: they return whole collections. `GET /camps/:id` and `DELETE /camps/:id` (index.js:133-160) are single-document reads and deletes with no bookkeeping.
- `/upcoming-camps` (index.js:329-336) depends on the clock and filters on a `date` field that camps never get.
- The feedback insert (index.js:301-327) swallows its errors, so it has no observable effect to state.
- `/update-camp` (index.js:338-355) is an arbitrary `$set` on a camp. `/join-camp` (index.js:358-375) is modelled only by `Records.BareIncrementBreaksCounts`.
- The commented-out token code (index.js:31-39) is not modelled. Payments and organizer checks are not present in this server file.
