/**
 * The endpoints of src/main.rs that hold logic of their own: the owner gate
 * on schema creation and removal, `draft` with its three checks before the
 * insert, the status gate of `update_submission`, `submit`, and the list
 * endpoints that turn a failed query into an empty list.  Also the endpoints
 * that only flatten one store write (`register_user`, `update_user`,
 * `add_event`, `update_event`, `close_event`), so that every endpoint that
 * writes is shown to keep the workflow rules.  Each endpoint opens
 * its own connection in the source; here it is handed the `Store`.  A Rust
 * panic (`unwrap`, `expect`) ends the call without touching the store and is
 * modelled as the `Panicked` outcome.  Its message is the text the panic starts
 * with; Rust follows it with ": " and the `Debug` form of the error, which is
 * not modelled.
 */
module Service {
  import opened Sqlite
  import opened Records
  import opened Query
  import opened Db

  /** How a call ends: with a value, or by panicking. */
  datatype Completion<+T> = Returned(value: T) | Panicked(message: string)

  const NOT_OWNER := "You are not the owner!"
  const HAVE_SUBMITTED := "User have submitted project"
  const NO_RECORD := "No submission record"
  const UNWRAP_ON_ERR := "called `Result::unwrap()` on an `Err` value"

  /** The flattened outcome of the administrative endpoints. */
  datatype IFResult = IFResult(success: bool, errMsg: string)

  /** `IFResult::from_res`: success with an empty message, or failure carrying
      the error's text. */
  function IFResultFromRes(res: Result<()>): (r: IFResult)
    ensures r.success <==> res.Ok?
    ensures res.Ok? ==> r.errMsg == ""
    ensures res.Err? ==> r.errMsg == ErrorText(res.error)
  {
    match res
    case Ok(_) => IFResult(true, "")
    case Err(e) => IFResult(false, ErrorText(e))
  }

  /** `IFResult::from_err_str`: a failure carrying the given text. */
  function IFResultFromErrStr(e: string): (r: IFResult)
    ensures !r.success && r.errMsg == e
  {
    IFResult(false, e)
  }

  /** The failed `Submission` the endpoints build from an error: `draft` wraps the
      text of the error in a fresh error and flattens that. */
  function Refused(e: Error): (s: Submission)
    ensures !s.success && s.errMsg == ErrorText(e)
    ensures s == FailedSubmission(ErrorText(e))
  {
    SubmissionFromRes(Err(Error(None, Some(ErrorText(e)))))
  }

  /** The cross-table rule of the workflow: no user has two submissions for one event. */
  ghost predicate OneSubmissionPerUserEvent(db: Store)
    reads db
  {
    forall i, j :: i in db.submissions && j in db.submissions && i != j ==>
      db.submissions[i].submitBy != db.submissions[j].submitBy || db.submissions[i].eventId != db.submissions[j].eventId
  }

  /** Every submission in `subs` names a user of `users` and an event of `events`. */
  ghost predicate RefersTo(subs: map<int, SubmissionRow>, users: map<string, UserRow>, events: map<int, EventRow>)
  {
    forall i :: i in subs ==> subs[i].submitBy in users && subs[i].eventId in events
  }

  /** Every submission names a registered user and an existing event. */
  ghost predicate SubmissionsReferToRows(db: Store)
    reads db
  {
    RefersTo(db.submissions, db.users, db.events)
  }

  /** A write that removes no user and no event keeps every submission's
      references intact. */
  lemma ReferencesKept(subs: map<int, SubmissionRow>, users: map<string, UserRow>, events: map<int, EventRow>,
                       users': map<string, UserRow>, events': map<int, EventRow>)
    requires RefersTo(subs, users, events)
    requires users.Keys <= users'.Keys && events.Keys <= events'.Keys
    ensures RefersTo(subs, users', events')
  {
    forall i | i in subs
      ensures subs[i].submitBy in users' && subs[i].eventId in events'
    {
      assert subs[i].submitBy in users.Keys && subs[i].eventId in events.Keys;
    }
  }

  // ------------------------------------------------------------- schema

  /** `init_service`: only the owner may create the tables. */
  method InitService(db: Store, isOwner: bool) returns (r: IFResult)
    requires db.Valid()
    modifies db`tables
    ensures db.Valid()
    ensures !isOwner ==> r == IFResult(false, NOT_OWNER) && db.tables == old(db.tables)
    ensures isOwner ==> r == IFResult(true, "") && db.tables == old(db.tables) + AllTables
    ensures old(OneSubmissionPerUserEvent(db)) ==> OneSubmissionPerUserEvent(db)
    ensures old(SubmissionsReferToRows(db)) ==> SubmissionsReferToRows(db)
  {
    if !isOwner {
      return IFResultFromErrStr(NOT_OWNER);
    }
    var res := db.CreateTables();
    r := IFResultFromRes(res);
  }

  /** `reset_service`: only the owner may drop the tables. */
  method ResetService(db: Store, isOwner: bool) returns (r: IFResult)
    requires db.Valid()
    modifies db`tables, db`users, db`events, db`nextEventId, db`submissions, db`nextSubmissionId
    ensures db.Valid()
    ensures !isOwner ==> r == IFResult(false, NOT_OWNER) && unchanged(db)
    ensures isOwner ==> && r == IFResult(true, "")
                        && db.tables == old(db.tables) - DroppedTables
                        && db.users == map[] && db.events == map[] && db.submissions == map[]
                        && OneSubmissionPerUserEvent(db) && SubmissionsReferToRows(db)
    ensures old(OneSubmissionPerUserEvent(db)) ==> OneSubmissionPerUserEvent(db)
    ensures old(SubmissionsReferToRows(db)) ==> SubmissionsReferToRows(db)
  {
    if !isOwner {
      return IFResultFromErrStr(NOT_OWNER);
    }
    var res := db.DeleteTables();
    r := IFResultFromRes(res);
  }

  // -------------------------------------------------------------- draft

  /** `draft` as the source writes it.  The duplicate check unwraps the lookup of
      an earlier submission, and that lookup fails exactly when there is none,
      so the call panics where it should insert: it never writes the store. */
  method DraftAsWritten(db: Store, eventId: int, name: string, description: string, thumbnail: string,
                        git: string, liveUrl: string, videoUrl: string, submitBy: string)
    returns (c: Completion<Submission>)
    requires db.Valid()
    ensures db.GetUser(submitBy).Err? ==> c == Returned(Refused(db.GetUser(submitBy).error))
    ensures db.GetUser(submitBy).Ok? && db.GetEvent(eventId).Err? ==>
              c == Returned(Refused(db.GetEvent(eventId).error))
    ensures db.GetUser(submitBy).Ok? && db.GetEvent(eventId).Ok? && db.HasSubmission(submitBy, eventId) ==>
              c == Returned(FailedSubmission(HAVE_SUBMITTED))
    ensures db.GetUser(submitBy).Ok? && db.GetEvent(eventId).Ok? && !db.HasSubmission(submitBy, eventId) ==>
              c == Panicked(UNWRAP_ON_ERR)
  {
    var user := db.GetUser(submitBy);
    if user.Err? {
      return Returned(Refused(user.error));
    }
    var event := db.GetEvent(eventId);
    if event.Err? {
      return Returned(Refused(event.error));
    }
    var userSubmission := db.GetUserSubmissionForEvent(submitBy, eventId);
    if userSubmission.Err? {
      return Panicked(UNWRAP_ON_ERR);
    }
    // The source inserts when the unwrapped struct is not `success`; a row the
    // lookup found always maps to a successful struct, so that branch is dead.
    assert userSubmission.value.success;
    c := Returned(SubmissionFromRes(Err(Error(None, Some(HAVE_SUBMITTED)))));
  }

  /** `draft` as evidently intended: the duplicate check treats a failed lookup as
      "no earlier submission" (`unwrap_or_default`) and inserts.  The user is
      checked first, then the event, then the earlier submission, each failure
      ending the call before the next lookup; only the last step writes. */
  method Draft(db: Store, eventId: int, name: string, description: string, thumbnail: string,
               git: string, liveUrl: string, videoUrl: string, submitBy: string)
    returns (c: Completion<Submission>)
    requires db.Valid()
    modifies db`submissions, db`nextSubmissionId
    ensures db.Valid()
    ensures c.Returned?
    ensures db.GetUser(submitBy).Err? ==>
              c.value == Refused(db.GetUser(submitBy).error) && unchanged(db)
    ensures db.GetUser(submitBy).Ok? && db.GetEvent(eventId).Err? ==>
              c.value == Refused(db.GetEvent(eventId).error) && unchanged(db)
    ensures db.GetUser(submitBy).Ok? && db.GetEvent(eventId).Ok? && old(db.HasSubmission(submitBy, eventId)) ==>
              c.value == FailedSubmission(HAVE_SUBMITTED) && unchanged(db)
    ensures db.GetUser(submitBy).Ok? && db.GetEvent(eventId).Ok? && Submissions !in db.tables ==>
              c.value == FailedSubmission(ErrorText(NoSuchTable(Submissions))) && unchanged(db)
    ensures db.GetUser(submitBy).Ok? && db.GetEvent(eventId).Ok? && Submissions in db.tables
            && !old(db.HasSubmission(submitBy, eventId)) ==>
              && db.nextSubmissionId == old(db.nextSubmissionId) + 1
              && db.submissions == old(db.submissions)[old(db.nextSubmissionId) := SubmissionRow(
                   old(db.nextSubmissionId), eventId, name, description, thumbnail, git, liveUrl, videoUrl,
                   submitBy, DRAFT)]
              && c.value == Submission(old(db.nextSubmissionId), eventId, name, description, thumbnail, git,
                                       liveUrl, videoUrl, submitBy, DRAFT, "", "", true)
    ensures old(OneSubmissionPerUserEvent(db)) ==> OneSubmissionPerUserEvent(db)
    ensures old(SubmissionsReferToRows(db)) ==> SubmissionsReferToRows(db)
  {
    var user := db.GetUser(submitBy);
    if user.Err? {
      return Returned(Refused(user.error));
    }
    var event := db.GetEvent(eventId);
    if event.Err? {
      return Returned(Refused(event.error));
    }
    var userSubmission := db.GetUserSubmissionForEvent(submitBy, eventId);
    var earlier := if userSubmission.Ok? then userSubmission.value else DefaultSubmission();
    if !earlier.success {
      var inserted := db.AddSubmission(eventId, name, description, thumbnail, git, liveUrl, videoUrl, submitBy);
      return Returned(SubmissionFromRes(inserted));
    }
    c := Returned(SubmissionFromRes(Err(Error(None, Some(HAVE_SUBMITTED)))));
  }

  // --------------------------------------------------------- submissions

  /** `update_submission`: panics on a missing submission; rewrites the content of
      a draft; leaves a handed-in submission as it is. */
  method UpdateSubmission(db: Store, id: int, name: string, description: string, thumbnail: string,
                          git: string, liveUrl: string, videoUrl: string)
    returns (c: Completion<()>)
    requires db.Valid()
    modifies db`submissions
    ensures db.Valid()
    ensures c.Panicked? <==> id !in old(db.submissions)
    ensures c.Panicked? ==> c.message == NO_RECORD && unchanged(db)
    ensures id in old(db.submissions) && old(db.submissions)[id].status == DRAFT ==>
              && c == Returned(())
              && db.submissions == old(db.submissions)[id := old(db.submissions)[id].(
                   projectName := name, description := description, thumbnail := thumbnail,
                   gitUrl := git, liveDemoUrl := liveUrl, videoDemoUrl := videoUrl)]
    ensures id in old(db.submissions) && old(db.submissions)[id].status != DRAFT ==>
              c == Returned(()) && unchanged(db)
    ensures old(OneSubmissionPerUserEvent(db)) ==> OneSubmissionPerUserEvent(db)
    ensures old(SubmissionsReferToRows(db)) ==> SubmissionsReferToRows(db)
  {
    var submission := db.GetSubmission(id);
    if submission.Err? {
      return Panicked(NO_RECORD);
    }
    if submission.value.status == DRAFT {
      // `.unwrap_or_default()` discards the read-back.
      var updated := db.UpdateSubmission(id, name, description, thumbnail, git, liveUrl, videoUrl);
    }
    c := Returned(());
  }

  /** `submit`: hands the submission in, whatever its status, and flattens the
      read-back. */
  method Submit(db: Store, id: int) returns (s: Submission)
    requires db.Valid()
    modifies db`submissions
    ensures db.Valid()
    ensures db.submissions == if id in old(db.submissions) then
                                old(db.submissions)[id := old(db.submissions)[id].(status := SUBMITTED)]
                              else old(db.submissions)
    ensures s.success <==> id in old(db.submissions)
    ensures s.success ==> s == SubmissionOf(old(db.submissions)[id]).(status := SUBMITTED)
    ensures Submissions !in db.tables ==> s == FailedSubmission(ErrorText(NoSuchTable(Submissions)))
    ensures Submissions in db.tables && id !in old(db.submissions) ==> s == FailedSubmission(ErrorText(NoneError()))
    ensures old(OneSubmissionPerUserEvent(db)) ==> OneSubmissionPerUserEvent(db)
    ensures old(SubmissionsReferToRows(db)) ==> SubmissionsReferToRows(db)
  {
    var res := db.SubmitSubmission(id);
    s := SubmissionFromRes(res);
  }

  /** `get_submissions`: every submission in table order, or no submissions when
      the query fails. */
  method GetSubmissions(db: Store) returns (r: seq<Submission>)
    requires db.Valid()
    ensures Submissions !in db.tables ==> r == []
    ensures Submissions in db.tables ==> r == SubmissionsOf(db.SubmissionRows())
    ensures forall s :: s in r ==> s.uuid in db.submissions && s == SubmissionOf(db.submissions[s.uuid])
    ensures forall id :: id in db.submissions ==> SubmissionOf(db.submissions[id]) in r
  {
    var res := db.GetSubmissions();
    r := if res.Ok? then res.value else [];
  }

  /** `get_event_submissions`: the submissions for one event in table order, or
      none when the query fails. */
  method GetEventSubmissions(db: Store, eventId: int) returns (r: seq<Submission>)
    requires db.Valid()
    ensures Submissions !in db.tables ==> r == []
    ensures Submissions in db.tables ==> r == SubmissionsOf(Filter(db.SubmissionRows(), ForEvent(eventId)))
    ensures forall s :: s in r ==> s.eventId == eventId && s.uuid in db.submissions
                                   && s == SubmissionOf(db.submissions[s.uuid])
    ensures forall id :: id in db.submissions && db.submissions[id].eventId == eventId ==>
              SubmissionOf(db.submissions[id]) in r
  {
    var res := db.GetSubmissionsByEvent(eventId);
    r := if res.Ok? then res.value else [];
  }

  // -------------------------------------------------------------- events

  /** `get_events`: every event in table order, or none when the query fails. */
  method GetEvents(db: Store) returns (r: seq<Event>)
    requires db.Valid()
    ensures Events !in db.tables ==> r == []
    ensures Events in db.tables ==> r == EventsOf(db.EventRows())
    ensures forall e :: e in r ==> e.id in db.events && e == EventOf(db.events[e.id])
    ensures forall id :: id in db.events ==> EventOf(db.events[id]) in r
  {
    var res := db.GetEvents();
    r := if res.Ok? then res.value else [];
  }

  /** `get_live_events`: the open events in table order, or none when the query fails. */
  method GetLiveEvents(db: Store) returns (r: seq<Event>)
    requires db.Valid()
    ensures Events !in db.tables ==> r == []
    ensures Events in db.tables ==> r == EventsOf(Filter(db.EventRows(), IsOpenRow))
    ensures forall e :: e in r ==> e.status == OPEN && e.id in db.events && e == EventOf(db.events[e.id])
    ensures forall id :: id in db.events && db.events[id].status == OPEN ==> EventOf(db.events[id]) in r
  {
    var res := db.GetLiveEvents();
    r := if res.Ok? then res.value else [];
  }

  // ------------------------------------------------- users and event writes

  /** `register_user`: the store's insert, flattened.  The user table gains the
      new user exactly when the call succeeds. */
  method RegisterUser(db: Store, nearAddress: string, email: string) returns (u: User)
    requires db.Valid()
    modifies db`users
    ensures db.Valid()
    ensures u.success <==> Users in db.tables && nearAddress !in old(db.users) && !EmailTaken(old(db.users), email)
    ensures db.users == if u.success then
                          old(db.users)[nearAddress := UserRow(nearAddress, email, None, None, None, None, None, None, None)]
                        else old(db.users)
    ensures u.success ==> u == User(nearAddress, email, "", "", 0, "", "", "", "", "", true)
    ensures Users !in db.tables ==> u == DefaultUser().(errMsg := ErrorText(NoSuchTable(Users)))
    ensures Users in db.tables && nearAddress in old(db.users) ==>
              u == DefaultUser().(errMsg := ErrorText(UniqueViolation("users.near_address")))
    ensures Users in db.tables && nearAddress !in old(db.users) && EmailTaken(old(db.users), email) ==>
              u == DefaultUser().(errMsg := ErrorText(UniqueViolation("users.email")))
    ensures old(OneSubmissionPerUserEvent(db)) ==> OneSubmissionPerUserEvent(db)
    ensures old(SubmissionsReferToRows(db)) ==> SubmissionsReferToRows(db)
  {
    ghost var before := db.users;
    var res := db.AddUser(nearAddress, email);
    u := UserFromRes(res);
    if RefersTo(db.submissions, before, db.events) {
      ReferencesKept(db.submissions, before, db.events, db.users, db.events);
    }
  }

  /** `update_user`: the store's profile update, flattened.  Only the named
      user's profile columns change. */
  method UpdateUser(db: Store, nearAddress: string, firstName: string, lastName: string, isStudent: Byte,
                    country: string, git: string, linkedin: string, twitter: string)
    returns (u: User)
    requires db.Valid()
    modifies db`users
    ensures db.Valid()
    ensures db.users == if nearAddress in old(db.users) then
                          old(db.users)[nearAddress := old(db.users)[nearAddress].(
                            firstName := Some(firstName), lastName := Some(lastName),
                            isStudent := Some(isStudent as int), country := Some(country),
                            gitHandler := Some(git), linkedinHandler := Some(linkedin),
                            twitterHandler := Some(twitter))]
                        else old(db.users)
    ensures u.success <==> nearAddress in old(db.users)
    ensures u.success ==> u == User(nearAddress, old(db.users)[nearAddress].email, firstName, lastName,
                                    isStudent as int, country, git, linkedin, twitter, "", true)
    ensures Users !in db.tables ==> u == DefaultUser().(errMsg := ErrorText(NoSuchTable(Users)))
    ensures Users in db.tables && nearAddress !in old(db.users) ==>
              u == DefaultUser().(errMsg := ErrorText(NoneError()))
    ensures old(OneSubmissionPerUserEvent(db)) ==> OneSubmissionPerUserEvent(db)
    ensures old(SubmissionsReferToRows(db)) ==> SubmissionsReferToRows(db)
  {
    ghost var before := db.users;
    var res := db.UpdateUser(nearAddress, firstName, lastName, isStudent, country, git, linkedin, twitter);
    u := UserFromRes(res);
    if RefersTo(db.submissions, before, db.events) {
      ReferencesKept(db.submissions, before, db.events, db.users, db.events);
    }
  }

  /** `add_event`: the store's insert, flattened.  An open event is stored under
      the next id exactly when the call succeeds. */
  method AddEvent(db: Store, title: string, eventType: string, startDate: string, endDate: string, logo: string)
    returns (e: Event)
    requires db.Valid()
    modifies db`events, db`nextEventId
    ensures db.Valid()
    ensures e.success <==> Events in db.tables
    ensures e.success ==> && old(db.nextEventId) !in old(db.events)
                          && db.nextEventId == old(db.nextEventId) + 1
                          && db.events == old(db.events)[old(db.nextEventId) := EventRow(
                               old(db.nextEventId), eventType, title, startDate, endDate, logo, OPEN)]
    ensures e.success ==> e == Event(old(db.nextEventId), title, eventType, startDate, endDate, logo, OPEN, "", true)
    ensures !e.success ==> && db.events == old(db.events) && db.nextEventId == old(db.nextEventId)
                           && e == DefaultEvent().(errMsg := ErrorText(NoSuchTable(Events)))
    ensures old(OneSubmissionPerUserEvent(db)) ==> OneSubmissionPerUserEvent(db)
    ensures old(SubmissionsReferToRows(db)) ==> SubmissionsReferToRows(db)
  {
    ghost var before := db.events;
    var res := db.AddEvent(title, eventType, startDate, endDate, logo);
    e := EventFromRes(res);
    if RefersTo(db.submissions, db.users, before) {
      ReferencesKept(db.submissions, db.users, before, db.users, db.events);
    }
  }

  /** `update_event`: the store's update, flattened.  Only the named event's
      descriptive columns change. */
  method UpdateEvent(db: Store, id: int, title: string, eventType: string, startDate: string, endDate: string,
                     logo: string)
    returns (e: Event)
    requires db.Valid()
    modifies db`events
    ensures db.Valid()
    ensures db.events == if id in old(db.events) then
                           old(db.events)[id := old(db.events)[id].(title := title, eventType := eventType,
                             startDate := startDate, endDate := endDate, logo := logo)]
                         else old(db.events)
    ensures e.success <==> id in old(db.events)
    ensures e.success ==> e == Event(id, title, eventType, startDate, endDate, logo, old(db.events)[id].status, "", true)
    ensures Events !in db.tables ==> e == DefaultEvent().(errMsg := ErrorText(NoSuchTable(Events)))
    ensures Events in db.tables && id !in old(db.events) ==> e == DefaultEvent().(errMsg := ErrorText(NoneError()))
    ensures old(OneSubmissionPerUserEvent(db)) ==> OneSubmissionPerUserEvent(db)
    ensures old(SubmissionsReferToRows(db)) ==> SubmissionsReferToRows(db)
  {
    ghost var before := db.events;
    var res := db.UpdateEvent(id, title, eventType, startDate, endDate, logo);
    e := EventFromRes(res);
    if RefersTo(db.submissions, db.users, before) {
      ReferencesKept(db.submissions, db.users, before, db.users, db.events);
    }
  }

  /** `close_event`: the store's status change, flattened.  Only the named event
      changes, and closing it twice changes nothing. */
  method CloseEvent(db: Store, id: int) returns (e: Event)
    requires db.Valid()
    modifies db`events
    ensures db.Valid()
    ensures db.events == if id in old(db.events) then old(db.events)[id := old(db.events)[id].(status := CLOSED)]
                         else old(db.events)
    ensures id in old(db.events) && old(db.events)[id].status == CLOSED ==> db.events == old(db.events)
    ensures e.success <==> id in old(db.events)
    ensures e.success ==> e == EventOf(old(db.events)[id]).(status := CLOSED)
    ensures Events !in db.tables ==> e == DefaultEvent().(errMsg := ErrorText(NoSuchTable(Events)))
    ensures Events in db.tables && id !in old(db.events) ==> e == DefaultEvent().(errMsg := ErrorText(NoneError()))
    ensures old(OneSubmissionPerUserEvent(db)) ==> OneSubmissionPerUserEvent(db)
    ensures old(SubmissionsReferToRows(db)) ==> SubmissionsReferToRows(db)
  {
    ghost var before := db.events;
    var res := db.CloseEvent(id);
    e := EventFromRes(res);
    if RefersTo(db.submissions, db.users, before) {
      ReferencesKept(db.submissions, db.users, before, db.users, db.events);
    }
  }

  // ---------------------------------------------------------- walkthrough

  /** The owner creates the tables, one user registers and one event opens. */
  method SetUp() returns (db: Store)
    ensures fresh(db) && db.Valid()
    ensures db.GetUser("alice").Ok? && db.GetEvent(1).Ok?
    ensures db.submissions == map[] && db.nextSubmissionId == 1 && Submissions in db.tables
  {
    db := new Store();
    var init := InitService(db, true);
    var user := db.AddUser("alice", "a@x");
    var event := db.AddEvent("Hack", "online", "d1", "d2", "logo");
    assert event.Ok? && event.value.id == 1;
  }

  /** A first draft, then its hand-in. */
  method DraftAndSubmit() returns (db: Store)
    ensures fresh(db) && db.Valid()
    ensures db.GetUser("alice").Ok? && db.GetEvent(1).Ok?
    ensures 1 in db.submissions && db.submissions[1].submitBy == "alice" && db.submissions[1].eventId == 1
    ensures db.submissions[1].status == SUBMITTED && db.submissions[1].projectName == "Proj"
  {
    db := SetUp();
    assert !db.HasSubmission("alice", 1);
    var first := Draft(db, 1, "Proj", "", "", "git", "", "video", "alice");
    assert first.value.success && first.value.uuid == 1 && first.value.status == DRAFT;
    var handedIn := Submit(db, 1);
    assert handedIn.success && handedIn.status == SUBMITTED;
  }

  /** After the hand-in, a second draft for the same event is refused and an
      edit changes nothing. */
  method Walkthrough()
  {
    var db := DraftAndSubmit();
    assert db.HasSubmission("alice", 1);
    var second := Draft(db, 1, "Other", "", "", "git", "", "video", "alice");
    assert second == Returned(FailedSubmission(HAVE_SUBMITTED));
    var edit := UpdateSubmission(db, 1, "Changed", "", "", "git", "", "video");
    assert db.submissions[1].projectName == "Proj";
  }

  /** As written, the first draft of a registered user for an existing event
      panics and stores nothing. */
  method WalkthroughAsWritten()
  {
    var db := SetUp();
    assert !db.HasSubmission("alice", 1);
    var first := DraftAsWritten(db, 1, "Proj", "", "", "git", "", "video", "alice");
    assert first == Panicked(UNWRAP_ON_ERR);
    assert db.submissions == map[];
  }
}
