# Hackathon submission service: a Dafny model

The service keeps a hackathon's users, events and project submissions in
one SQLite file and exposes them as remote endpoints. `src/db.rs` holds one
function per SQL statement plus the row-to-struct conversions. `src/main.rs`
holds the endpoints, which open a connection, call the store, and flatten
`Result`s into structs with a `success` flag and an `err_msg`.

The model has five modules:

- `Sqlite` (sqlite.dfy): the connector's `Value`, `Error` and `Result` types. `Result` supports `:-`, which plays Rust's `?`. It also holds the error's display text.
- `Query` (query.dfy): what a `select` returns. The model assumes SQLite's plain table scan: without an `order by`, rows of an integer-keyed table come back in ascending key order. SQL itself does not promise this. A `where` clause keeps only the rows it matches, in that order. The module proves generic lemmas about ordering and about the first match.
- `Records` (records.dfy): the `User`, `Submission` and `Event` structs, their `from_row`/`from_res` conversions, and the typed rows stored in each table.
- `Db` (db.dfy): the SQLite file as the class `Store`. Each table is a `map` from primary key to row. The `AUTOINCREMENT` counters and the set of existing tables are fields. Every statement function of `db.rs` is a member; `get_none_error` and the `from_row`/`from_res` conversions live in `Records`, and `get_connection` is left out:
  - single-row reads are functions;
  - the list queries are methods whose `while` loop drains a cursor, proved against a recursive specification;
  - the writes are methods whose `modifies` clause names the fields they change.
- `Service` (service.dfy): the endpoints of `main.rs` that contain their own logic:
  - the owner gate;
  - `draft`, both as written and as intended;
  - the status gate of `update_submission`;
  - `submit`;
  - the list endpoints;
  - the endpoints that flatten one store write: `register_user`, `update_user`, `add_event`, `update_event` and `close_event`.

  Four walkthrough methods run the submission workflow from start to finish.

`Store.Valid()` is the invariant every operation keeps:

- a table that does not exist is empty and its counter is 1;
- users are keyed by address, and their emails are unique;
- every key lies below its table's counter and equals the row's own id;
- statuses are 1 or 2.

Service additionally proves two workflow rules for every endpoint that writes (`InitService`, `ResetService`, `RegisterUser`, `UpdateUser`, `AddEvent`, `UpdateEvent`, `CloseEvent`, `Draft`, `UpdateSubmission`, `Submit`):

- "at most one submission per user and event" is never broken, and the intended `Draft` is the one endpoint that could break it;
- "every submission names a stored user and event" is never broken. The store writes behind the user and event endpoints never remove a key, and `Service.ReferencesKept` shows that this is enough.

## Model

| member | source | states |
|---|---|---|
| Sqlite.ErrorText | src/main.rs:33-36 | an error with only a message displays as that message; one with a code never displays as empty |
| Query.InKeyOrder | src/db.rs:350-359 | a `select *` over a keyed table returns exactly the stored rows |
| Query.Filter | src/db.rs:361-375 | a `where` clause keeps exactly the rows that match and never adds rows |
| Query.FilterAll | src/db.rs:527-536 | a query with no `where` clause returns the table unchanged |
| Query.InKeyOrderAscending | src/db.rs:350-359 | rows of a table keyed by their own id come back in strictly ascending key order |
| Query.FilterAscending | src/db.rs:361-375 | filtering keeps that order |
| Query.FirstMatch | src/db.rs:333-348 | `cursor.next()` after a `where` yields a row iff some row matches, and it is the matching row with the smallest key |
| Records.NoneError | src/db.rs:6-11 | the "missing value" error has no code and displays as "Value doesn't exist" |
| Records.UserColumns | src/db.rs:20-30 | `User::from_row` on the columns of a stored user row gives back that user: a round trip |
| Records.UserFromRow | src/db.rs:165-182 | succeeds iff address and email are text, else fails with the missing-value error; each profile column is copied when it holds text (an integer for the student flag) and otherwise becomes "" (0) |
| Records.UserFromRes | src/db.rs:184-194 | success iff the result is Ok with a successful struct; Ok passes through; Err gives the default user carrying the error text |
| Records.SubmissionColumns | src/db.rs:49-64 | `Submission::from_row` on a stored submission row's columns gives back that submission |
| Records.SubmissionFromRow | src/db.rs:217-235 | succeeds iff uuid and event id are integers and name and description are text, else fails with the missing-value error; those four are copied; thumbnail, the three URLs and `submit_by` are copied when they hold text and otherwise become ""; status is copied when it is an integer and otherwise becomes 0 |
| Records.SubmissionFromRes | src/db.rs:237-247 | success iff Ok with a successful struct; Ok passes through; Err gives a failed submission carrying the error text |
| Records.EventFromRowAsWritten | src/db.rs:393-408 | reads the title from column 1 and the type from column 2; succeeds iff id, both of those and status are present; id and status are copied; start date, end date and logo are copied when they hold text and otherwise become "" |
| Records.EventRoundTripAsWritten | src/db.rs:36-44 | with the table's column order (type before title), reading a stored event back gives the stored event iff its title equals its type; otherwise the two come back swapped |
| Records.EventSwapWitness | src/db.rs:393-408 | an event titled "Hack" of type "online" reads back titled "online" |
| Records.EventFromRow | src/db.rs:393-408 | the corrected reading: the type from column 1, the title from column 2, with the same success conditions and the same copying and defaults for id, status, dates and logo |
| Records.EventColumns | src/db.rs:36-44 | reading a stored event's columns with the corrected reading gives back that event |
| Records.EventFromRes | src/db.rs:410-420 | success iff Ok with a successful struct; Ok passes through; Err gives the default event carrying the error text |
| Db.CollectEvents | src/db.rs:527-536 | collecting a cursor yields one event per row, or the first conversion error |
| Db.CollectEventsStops | src/db.rs:527-536 | once a prefix of the cursor fails, the whole collection fails with that error, as `?` does |
| Db.CollectStoredEvents | src/db.rs:527-536 | the cursor over stored event rows never fails and yields exactly those events |
| Db.CollectSubmissions | src/db.rs:350-359 | collecting a cursor yields one submission per row, or the first conversion error |
| Db.CollectSubmissionsStops | src/db.rs:350-359 | once a prefix fails, the whole collection fails with that error |
| Db.CollectStoredSubmissions | src/db.rs:350-359 | the cursor over stored submission rows yields exactly those submissions |
| Db.DrainEvents | src/db.rs:527-536 | the `while let` loop over the cursor returns what `CollectEvents` specifies |
| Db.DrainSubmissions | src/db.rs:350-359 | the `while let` loop over the cursor returns what `CollectSubmissions` specifies |
| Db.Store.constructor | src/db.rs:13-15 | a freshly opened file has no tables and satisfies the invariant |
| Db.Store.CreateTables | src/db.rs:17-79 | succeeds and adds all four tables; existing tables and rows stay (`if not exists`) |
| Db.Store.DeleteTables | src/db.rs:81-91 | drops users, events and submissions with their rows and counters; keeps submission_team |
| Db.Store.GetUser | src/db.rs:105-116 | Ok iff the table exists and holds the address, returning that user; otherwise "no such table" or the missing-value error |
| Db.Store.AddUser | src/db.rs:93-103 | inserts iff the table exists and neither the address nor the email is taken; each failure has its own error and changes nothing; the new user has empty profile fields |
| Db.Store.UpdateUser | src/db.rs:118-146 | rewrites exactly the profile columns of an existing user and returns the updated user; a missing user is an error and nothing changes |
| Db.Store.GetSubmission | src/db.rs:323-331 | Ok iff the submission exists; its errors as for users |
| Db.Store.GetUserSubmissionForEvent | src/db.rs:333-348 | Ok iff the user has a submission for the event, and then the one with the smallest uuid; otherwise the missing-value error |
| Db.Store.AddSubmission | src/db.rs:250-278 | inserts a draft under the next uuid iff the table exists, with no check on user or event; returns it |
| Db.Store.UpdateSubmission | src/db.rs:280-307 | rewrites the six content columns of an existing submission, whatever its status; keeps owner, event and status |
| Db.Store.SubmitSubmission | src/db.rs:309-321 | sets an existing submission's status to submitted and returns it; doing so again changes nothing |
| Db.Store.GetSubmissions | src/db.rs:350-359 | every stored submission exactly once, in ascending uuid order |
| Db.Store.GetSubmissionsByEvent | src/db.rs:361-375 | exactly the submissions for the event, in ascending uuid order |
| Db.Store.SubmissionListFacts | src/db.rs:361-375 | the converted filtered table holds every matching stored row, only those, in uuid order |
| Db.Store.EventReadAsWritten | src/db.rs:504-512 | as the source reads a stored event, `get_event` returns it with title and type exchanged |
| Db.Store.GetEvent | src/db.rs:504-512 | Ok iff the event exists, returning it; otherwise the matching error |
| Db.Store.AddEvent | src/db.rs:423-460 | inserts an open event under the next id iff the table exists and returns it |
| Db.Store.UpdateEvent | src/db.rs:462-487 | rewrites the five descriptive columns of an existing event, keeping its status |
| Db.Store.CloseEvent | src/db.rs:489-502 | sets an existing event's status to closed and returns it; closing twice changes nothing |
| Db.Store.GetEvents | src/db.rs:527-536 | every stored event exactly once, in ascending id order |
| Db.Store.GetLiveEvents | src/db.rs:514-525 | exactly the open events, in ascending id order |
| Db.Store.EventListFacts | src/db.rs:514-536 | the converted filtered table holds every matching stored row, only those, in id order |
| Service.IFResultFromRes | src/main.rs:26-37 | success iff Ok; the message is empty on success and the error's text otherwise |
| Service.IFResultFromErrStr | src/main.rs:39-44 | a failure carrying the given text |
| Service.Refused | src/main.rs:156-163 | re-wrapping an error as a message-only error gives a failed submission carrying the original text |
| Service.InitService | src/main.rs:48-56 | a non-owner gets "You are not the owner!" and no tables appear; the owner gets success and all tables |
| Service.ResetService | src/main.rs:59-67 | a non-owner changes nothing; the owner empties the three data tables |
| Service.DraftAsWritten | src/main.rs:111-164 | an unknown user or event is refused with its error text; a repeated draft is refused; a first draft always panics on the unwrap, so the call never inserts |
| Service.Draft | src/main.rs:111-164 | checks the user, then the event, then an earlier submission; inserts a draft only when all pass; keeps at most one submission per user and event, and keeps every submission pointing at a stored user and event |
| Service.UpdateSubmission | src/main.rs:167-192 | panics iff the submission is missing; rewrites a draft's content; leaves a submitted entry untouched |
| Service.Submit | src/main.rs:195-200 | submits an existing submission and reports success iff it existed; otherwise the matching error text |
| Service.ReferencesKept | src/db.rs:62-63 | a write that removes no user and no event keeps every submission's user and event references |
| Service.RegisterUser | src/main.rs:69-73 | success iff the table exists and the address and email are free; the user table gains exactly the new row on success and is unchanged otherwise; returns the new user with empty profile, or the default user carrying "no such table" or the UNIQUE error for the address or the email; keeps both workflow rules |
| Service.UpdateUser | src/main.rs:76-100 | rewrites exactly the seven profile columns of an existing user and nothing else; success iff the user exists, returning the updated profile, else the default user carrying "no such table" or the missing-value text; keeps both workflow rules |
| Service.AddEvent | src/main.rs:234-244 | success iff the table exists; then the event table gains exactly one open row under the next id and the counter advances, else both are unchanged; returns that event in full, or the default event carrying "no such table"; keeps both workflow rules |
| Service.UpdateEvent | src/main.rs:247-258 | rewrites exactly the five descriptive columns of an existing event and nothing else; success iff it exists, returning it with the new fields and its old status, else the default event carrying the matching error; keeps both workflow rules |
| Service.CloseEvent | src/main.rs:261-265 | closes exactly the named event and nothing else, a second close changing nothing; success iff it exists, returning it closed, else the default event carrying the matching error; keeps both workflow rules |
| Service.GetSubmissions | src/main.rs:219-223 | every stored submission, or an empty list when the table is missing |
| Service.GetEventSubmissions | src/main.rs:226-230 | exactly the event's submissions, or an empty list when the table is missing |
| Service.GetEvents | src/main.rs:276-280 | every stored event, or an empty list when the table is missing |
| Service.GetLiveEvents | src/main.rs:283-287 | exactly the open events, or an empty list when the table is missing |

## Left out

- The remote-call SDK, logging, `main` and the `#[marine]` export glue: they are platform plumbing, with no logic.
- `get_connection` and `DB_PATH`: every endpoint opens the same file, so the model passes one `Store` to each call.
- The `auth` module: `am_i_owner` depends on the calling peer, which is outside the model. The owner check is a boolean parameter of `InitService` and `ResetService`.
- SQL text building with `format!`: values are spliced into the SQL text unescaped. The model treats every argument as a plain value, so quoting, injection and syntax errors from a stray `'` are not modelled.
- The `created_at` column: it is filled by the engine's clock, and no struct reads it back.
- `submission_team` rows: no statement writes or reads them. Only the table's existence is modelled.
- The foreign keys of `submissions`: SQLite does not enforce them unless the connection enables them, and this one does not. `AddSubmission` therefore checks nothing. The reference rule lives in `Service.SubmissionsReferToRows`.
- Concurrent calls and the isolation between separate connections: each endpoint is modelled as one atomic step.
- 64-bit integers: ids and counters are unbounded `int`s. The `AUTOINCREMENT` limit and `i64` overflow are not modelled.
- Float and blob column values: the schema never stores them.
- The error's display text comes from the connector crate, which is not part of this model. `Sqlite.ErrorText` follows its usual form: the message, then " (code N)". The engine messages "no such table: …" and "UNIQUE constraint failed: …" come from SQLite itself.
- Db.Store.GetEvent: returns the event read with the corrected `Records.EventFromRow`, while the source returns title and type swapped (first row of Findings; `Db.Store.EventReadAsWritten` states the source's result).
- Db.Store.AddEvent: returns the read-back event under the corrected reading; the source returns it with title and type swapped (first row of Findings). The stored row is as the source stores it.
- Db.Store.UpdateEvent: returns the read-back event under the corrected reading; the source returns it with title and type swapped (first row of Findings).
- Db.Store.CloseEvent: returns the read-back event under the corrected reading; the source returns it with title and type swapped (first row of Findings).
- Db.Store.GetEvents: lists events under the corrected reading; the source lists each with title and type swapped (first row of Findings).
- Db.Store.GetLiveEvents: lists open events under the corrected reading; the source lists each with title and type swapped (first row of Findings).
- Db.CollectEvents: converts each row with the corrected `Records.EventFromRow`; the source's loop uses `Event::from_row` as written, which swaps title and type (first row of Findings).
- Db.DrainEvents: the loop converts each row with the corrected `Records.EventFromRow`; the source's loop swaps title and type (first row of Findings).
- Db.CollectStoredEvents: states that stored rows read back as the stored events under the corrected reading; the source's loop yields them with title and type swapped (first row of Findings).
- Service.AddEvent: returns the read-back event under the corrected reading of `Db.Store.AddEvent`; the source returns title and type swapped (first row of Findings).
- Service.UpdateEvent: returns the read-back event under the corrected reading of `Db.Store.UpdateEvent`; the source returns title and type swapped (first row of Findings).
- Service.CloseEvent: returns the read-back event under the corrected reading of `Db.Store.CloseEvent`; the source returns title and type swapped (first row of Findings).
- Service.GetEvents: inherits the corrected reading of `Db.Store.GetEvents`; the source returns title and type swapped (first row of Findings).
- Service.GetLiveEvents: inherits the corrected reading of `Db.Store.GetLiveEvents`; the source returns title and type swapped (first row of Findings).
- Panic messages in `Service`: the model keeps the text a panic starts with; Rust appends ": " and the `Debug` form of the error, which comes from the connector crate.
- Db.Store.AddUser: when both the address and the email are already taken, it reports the address column. The source does not determine which column SQLite names.
- The read-only endpoints `get_user`, `get_submission`, `get_user_event_submission` and `get_event` in `main.rs`: each one applies `from_res` to a single store read. Both halves are modelled (`Records.*FromRes` and the `Db.Store` function), and such an endpoint changes nothing, so no separate wrapper is written.
- The walkthroughs (`Service.SetUp`, `Service.DraftAndSubmit`, `Service.Walkthrough`, `Service.WalkthroughAsWritten`) are worked examples. They are not source functions.

## Findings

| source | as written | input that shows it | evidently intended | confidence | as-written member | corrected member |
|---|---|---|---|---|---|---|
| src/db.rs:393-408 | `Event::from_row` reads `title` from column 1 and `event_type` from column 2, but `events` declares `type` before `title` (src/db.rs:36-44), so `select *` returns them in that order | an event added with title "Hack" and type "online" reads back with title "online" and type "Hack" | column 1 is the type and column 2 is the title | high (not executed) | Records.EventFromRowAsWritten | Records.EventFromRow |
| src/main.rs:129-132 | `draft` calls `unwrap()` on `get_user_submission_for_event`, which returns an error whenever the user has no submission for the event | a registered user's first draft for an existing event panics, so no submission can ever be created through `draft` | treat a failed lookup as "no earlier submission" and insert | high (not executed) | Service.DraftAsWritten | Service.Draft |
