/**
 * The repository layer of src/db.rs over an abstract SQLite file.  The file
 * is a `Store` object: the set of tables that exist, the rows of `users`
 * keyed by address, the rows of `events` and `submissions` keyed by their
 * AUTOINCREMENT ids together with the next id each will hand out.  Every
 * statement function of db.rs is a member of `Store`: single-row reads are
 * functions, the list queries are methods, and the statements that write are
 * methods whose `modifies` clause names the table they touch.  The cursor loop
 * the list queries share is the module-level `DrainEvents`/`DrainSubmissions`;
 * `get_none_error` and the `from_row`/`from_res` conversions are in `Records`.
 */
module Db {
  import opened Sqlite
  import opened Records
  import opened Query

  /** SQLite's primary result codes for a failed statement and a violated constraint. */
  const SQLITE_ERROR: int := 1
  const SQLITE_CONSTRAINT: int := 19

  /** Rust's `u8`. */
  type Byte = x: int | 0 <= x < 256

  datatype Table = Users | Events | Submissions | SubmissionTeam {
    function Name(): string
    {
      match this
      case Users => "users"
      case Events => "events"
      case Submissions => "submissions"
      case SubmissionTeam => "submission_team"
    }
  }

  /** The tables `create_tables` creates and the ones `delete_tables` drops:
      `submission_team` is created but never dropped. */
  const AllTables: set<Table> := {Users, Events, Submissions, SubmissionTeam}
  const DroppedTables: set<Table> := {Users, Events, Submissions}

  /** The engine's error for a statement on a table that does not exist. */
  function NoSuchTable(t: Table): Error
  {
    Error(Some(SQLITE_ERROR), Some("no such table: " + t.Name()))
  }

  /** The engine's error for an insert that repeats a unique column. */
  function UniqueViolation(column: string): Error
  {
    Error(Some(SQLITE_CONSTRAINT), Some("UNIQUE constraint failed: " + column))
  }

  predicate EmailTaken(users: map<string, UserRow>, email: string)
  {
    exists a :: a in users && users[a].email == email
  }

  function EventRowId(row: EventRow): int { row.id }
  function EventId(e: Event): int { e.id }
  function SubmissionRowId(row: SubmissionRow): int { row.uuid }
  function SubmissionId(s: Submission): int { s.uuid }

  /** The `where event_id = ...` of `get_submissions_by_event`. */
  function ForEvent(eventId: int): SubmissionRow -> bool
  {
    (row: SubmissionRow) => row.eventId == eventId
  }

  /** The `where submit_by = ... AND event_id = ...` of `get_user_submission_for_event`. */
  function ByUserForEvent(address: string, eventId: int): SubmissionRow -> bool
  {
    (row: SubmissionRow) => row.submitBy == address && row.eventId == eventId
  }

  /** The `where status = 1` of `get_live_events`. */
  function IsOpenRow(row: EventRow): bool { row.status == OPEN }

  // ------------------------------------------------------------ cursors

  /** The fetched rows a cursor over `rows` yields. */
  function EventCursor(rows: seq<EventRow>): (cursor: seq<seq<Value>>)
    ensures |cursor| == |rows|
    ensures forall i :: 0 <= i < |rows| ==> cursor[i] == EventColumns(rows[i])
  {
    seq(|rows|, i requires 0 <= i < |rows| => EventColumns(rows[i]))
  }

  function EventsOf(rows: seq<EventRow>): (events: seq<Event>)
    ensures |events| == |rows|
    ensures forall i :: 0 <= i < |rows| ==> events[i] == EventOf(rows[i])
  {
    seq(|rows|, i requires 0 <= i < |rows| => EventOf(rows[i]))
  }

  /** What the `while let` loop of the event queries returns for a cursor: every
      row mapped by `from_row`, or the first mapping error. */
  function CollectEvents(cursor: seq<seq<Value>>): (r: Result<seq<Event>>)
    requires forall i :: 0 <= i < |cursor| ==> |cursor[i]| >= 7
    ensures r.Ok? ==> |r.value| == |cursor|
  {
    if cursor == [] then Ok([])
    else
      var n := |cursor| - 1;
      var events :- CollectEvents(cursor[..n]);
      var e :- EventFromRow(cursor[n]);
      Ok(events + [e])
  }

  /** Once a prefix of the cursor has failed, the whole loop fails with that error. */
  lemma {:induction false} CollectEventsStops(cursor: seq<seq<Value>>, k: nat)
    requires forall i :: 0 <= i < |cursor| ==> |cursor[i]| >= 7
    requires k <= |cursor|
    ensures CollectEvents(cursor[..k]).Err? ==> CollectEvents(cursor) == CollectEvents(cursor[..k])
    decreases |cursor| - k
  {
    if k < |cursor| && CollectEvents(cursor[..k]).Err? {
      assert cursor[..k + 1][..k] == cursor[..k];
      CollectEventsStops(cursor, k + 1);
    } else if k == |cursor| {
      assert cursor[..k] == cursor;
    }
  }

  /** Over stored rows the loop never fails and returns every row as its struct. */
  lemma {:induction false} CollectStoredEvents(rows: seq<EventRow>)
    ensures CollectEvents(EventCursor(rows)) == Ok(EventsOf(rows))
  {
    if rows != [] {
      var n := |rows| - 1;
      var cursor := EventCursor(rows);
      assert cursor[..n] == EventCursor(rows[..n]);
      CollectStoredEvents(rows[..n]);
      assert EventFromRow(cursor[n]) == Ok(EventOf(rows[n])) by {
        assert cursor[n] == EventColumns(rows[n]);
      }
      assert CollectEvents(cursor) == Ok(EventsOf(rows[..n]) + [EventOf(rows[n])]);
      assert EventsOf(rows) == EventsOf(rows[..n]) + [EventOf(rows[n])];
    }
  }

  function SubmissionCursor(rows: seq<SubmissionRow>): (cursor: seq<seq<Value>>)
    ensures |cursor| == |rows|
    ensures forall i :: 0 <= i < |rows| ==> cursor[i] == SubmissionColumns(rows[i])
  {
    seq(|rows|, i requires 0 <= i < |rows| => SubmissionColumns(rows[i]))
  }

  function SubmissionsOf(rows: seq<SubmissionRow>): (subs: seq<Submission>)
    ensures |subs| == |rows|
    ensures forall i :: 0 <= i < |rows| ==> subs[i] == SubmissionOf(rows[i])
  {
    seq(|rows|, i requires 0 <= i < |rows| => SubmissionOf(rows[i]))
  }

  /** What the `while let` loop of the submission queries returns for a cursor. */
  function CollectSubmissions(cursor: seq<seq<Value>>): (r: Result<seq<Submission>>)
    requires forall i :: 0 <= i < |cursor| ==> |cursor[i]| >= 10
    ensures r.Ok? ==> |r.value| == |cursor|
  {
    if cursor == [] then Ok([])
    else
      var n := |cursor| - 1;
      var subs :- CollectSubmissions(cursor[..n]);
      var s :- SubmissionFromRow(cursor[n]);
      Ok(subs + [s])
  }

  lemma {:induction false} CollectSubmissionsStops(cursor: seq<seq<Value>>, k: nat)
    requires forall i :: 0 <= i < |cursor| ==> |cursor[i]| >= 10
    requires k <= |cursor|
    ensures CollectSubmissions(cursor[..k]).Err? ==> CollectSubmissions(cursor) == CollectSubmissions(cursor[..k])
    decreases |cursor| - k
  {
    if k < |cursor| && CollectSubmissions(cursor[..k]).Err? {
      assert cursor[..k + 1][..k] == cursor[..k];
      CollectSubmissionsStops(cursor, k + 1);
    } else if k == |cursor| {
      assert cursor[..k] == cursor;
    }
  }

  lemma {:induction false} CollectStoredSubmissions(rows: seq<SubmissionRow>)
    ensures CollectSubmissions(SubmissionCursor(rows)) == Ok(SubmissionsOf(rows))
  {
    if rows != [] {
      var n := |rows| - 1;
      var cursor := SubmissionCursor(rows);
      assert cursor[..n] == SubmissionCursor(rows[..n]);
      CollectStoredSubmissions(rows[..n]);
      assert SubmissionFromRow(cursor[n]) == Ok(SubmissionOf(rows[n])) by {
        assert cursor[n] == SubmissionColumns(rows[n]);
      }
      assert CollectSubmissions(cursor) == Ok(SubmissionsOf(rows[..n]) + [SubmissionOf(rows[n])]);
      assert SubmissionsOf(rows) == SubmissionsOf(rows[..n]) + [SubmissionOf(rows[n])];
    }
  }

  /** The `while let Some(row) = cursor.next()? { events.push(Event::from_row(row)?) }`
      loop of `get_events` and `get_live_events`. */
  method DrainEvents(cursor: seq<seq<Value>>) returns (r: Result<seq<Event>>)
    requires forall i :: 0 <= i < |cursor| ==> |cursor[i]| >= 7
    ensures r == CollectEvents(cursor)
  {
    var events: seq<Event> := [];
    var i := 0;
    while i < |cursor|
      invariant 0 <= i <= |cursor|
      invariant CollectEvents(cursor[..i]) == Ok(events)
    {
      assert cursor[..i + 1][..i] == cursor[..i];
      CollectEventsStops(cursor, i + 1);
      var next := EventFromRow(cursor[i]);
      assert CollectEvents(cursor[..i + 1]) == if next.Err? then Err(next.error) else Ok(events + [next.value]);
      var e :- next;
      events := events + [e];
      i := i + 1;
    }
    assert cursor[..i] == cursor;
    r := Ok(events);
  }

  /** The same loop in `get_submissions` and `get_submissions_by_event`. */
  method DrainSubmissions(cursor: seq<seq<Value>>) returns (r: Result<seq<Submission>>)
    requires forall i :: 0 <= i < |cursor| ==> |cursor[i]| >= 10
    ensures r == CollectSubmissions(cursor)
  {
    var subs: seq<Submission> := [];
    var i := 0;
    while i < |cursor|
      invariant 0 <= i <= |cursor|
      invariant CollectSubmissions(cursor[..i]) == Ok(subs)
    {
      assert cursor[..i + 1][..i] == cursor[..i];
      CollectSubmissionsStops(cursor, i + 1);
      var next := SubmissionFromRow(cursor[i]);
      assert CollectSubmissions(cursor[..i + 1]) == if next.Err? then Err(next.error) else Ok(subs + [next.value]);
      var s :- next;
      subs := subs + [s];
      i := i + 1;
    }
    assert cursor[..i] == cursor;
    r := Ok(subs);
  }

  // -------------------------------------------------------------- store

  class Store {
    var tables: set<Table>
    var users: map<string, UserRow>
    var events: map<int, EventRow>
    var nextEventId: int
    var submissions: map<int, SubmissionRow>
    var nextSubmissionId: int

    /** What the schema guarantees: a missing table holds nothing and hands out
        ids from 1 again; a user row is keyed by its address and no two users
        share an email; ids lie below the next id to hand out; a row carries its
        own id; statuses are 1 or 2. */
    ghost predicate Valid()
      reads this
    {
      && (Users !in tables ==> users == map[])
      && (Events !in tables ==> events == map[] && nextEventId == 1)
      && (Submissions !in tables ==> submissions == map[] && nextSubmissionId == 1)
      && (forall a :: a in users ==> users[a].nearAddress == a)
      && (forall a, b :: a in users && b in users && users[a].email == users[b].email ==> a == b)
      && 1 <= nextEventId
      && (forall id :: id in events ==>
            && 1 <= id < nextEventId
            && events[id].id == id
            && (events[id].status == OPEN || events[id].status == CLOSED))
      && 1 <= nextSubmissionId
      && (forall id :: id in submissions ==>
            && 1 <= id < nextSubmissionId
            && submissions[id].uuid == id
            && (submissions[id].status == DRAFT || submissions[id].status == SUBMITTED))
    }

    /** A database file with no tables in it. */
    constructor ()
      ensures Valid()
      ensures tables == {}
    {
      tables := {};
      users := map[];
      events := map[];
      nextEventId := 1;
      submissions := map[];
      nextSubmissionId := 1;
    }

    /** The rows of `events` in the order `select *` yields them. */
    function EventRows(): seq<EventRow>
      reads this
    {
      InKeyOrder(events, 1, nextEventId)
    }

    /** The rows of `submissions` in the order `select *` yields them. */
    function SubmissionRows(): seq<SubmissionRow>
      reads this
    {
      InKeyOrder(submissions, 1, nextSubmissionId)
    }

    /** Whether `address` already has a submission for `eventId`. */
    ghost predicate HasSubmission(address: string, eventId: int)
      reads this
    {
      exists id :: id in submissions && submissions[id].submitBy == address && submissions[id].eventId == eventId
    }

    // ------------------------------------------------------------ schema

    /** `create_tables`: creates each table that is missing and leaves the rows
        of the existing ones alone. */
    method CreateTables() returns (r: Result<()>)
      requires Valid()
      modifies this`tables
      ensures Valid()
      ensures r == Ok(())
      ensures tables == old(tables) + AllTables
    {
      tables := tables + AllTables;
      r := Ok(());
    }

    /** `delete_tables`: drops `submissions`, `events` and `users` with their rows
        and their AUTOINCREMENT counters; `submission_team` stays. */
    method DeleteTables() returns (r: Result<()>)
      requires Valid()
      modifies this`tables, this`users, this`events, this`nextEventId, this`submissions, this`nextSubmissionId
      ensures Valid()
      ensures r == Ok(())
      ensures tables == old(tables) - DroppedTables
      ensures users == map[] && events == map[] && submissions == map[]
      ensures nextEventId == 1 && nextSubmissionId == 1
    {
      tables := tables - DroppedTables;
      users, events, submissions := map[], map[], map[];
      nextEventId, nextSubmissionId := 1, 1;
      r := Ok(());
    }

    // ------------------------------------------------------------- users

    /** `get_user`. */
    function GetUser(nearAddress: string): (r: Result<User>)
      reads this
      ensures r.Ok? <==> Users in tables && nearAddress in users
      ensures r.Ok? ==> r.value == UserOf(users[nearAddress])
      ensures Users !in tables ==> r == Err(NoSuchTable(Users))
      ensures Users in tables && nearAddress !in users ==> r == Err(NoneError())
    {
      if Users !in tables then Err(NoSuchTable(Users))
      else if nearAddress !in users then Err(NoneError())
      else UserFromRow(UserColumns(users[nearAddress]))
    }

    /** `add_user`: inserts a user with only its address and email, unless either
        is taken already, and reads it back. */
    method AddUser(nearAddress: string, email: string) returns (r: Result<User>)
      requires Valid()
      modifies this`users
      ensures Valid()
      ensures old(users).Keys <= users.Keys
      ensures r.Ok? <==> Users in tables && nearAddress !in old(users) && !EmailTaken(old(users), email)
      ensures Users !in tables ==> r == Err(NoSuchTable(Users))
      ensures Users in tables && nearAddress in old(users) ==> r == Err(UniqueViolation("users.near_address"))
      ensures Users in tables && nearAddress !in old(users) && EmailTaken(old(users), email) ==>
                r == Err(UniqueViolation("users.email"))
      ensures r.Err? ==> users == old(users)
      ensures r.Ok? ==> users == old(users)[nearAddress := UserRow(nearAddress, email, None, None, None, None, None, None, None)]
      ensures r.Ok? ==> r.value == User(nearAddress, email, "", "", 0, "", "", "", "", "", true)
    {
      if Users !in tables {
        return Err(NoSuchTable(Users));
      }
      if nearAddress in users {
        return Err(UniqueViolation("users.near_address"));
      }
      if EmailTaken(users, email) {
        return Err(UniqueViolation("users.email"));
      }
      users := users[nearAddress := UserRow(nearAddress, email, None, None, None, None, None, None, None)];
      r := GetUser(nearAddress);
    }

    /** `update_user`: replaces the seven profile columns of the user with this
        address, if there is one, and reads the user back. */
    method UpdateUser(nearAddress: string, firstName: string, lastName: string, isStudent: Byte,
                      country: string, git: string, linkedin: string, twitter: string)
      returns (r: Result<User>)
      requires Valid()
      modifies this`users
      ensures Valid()
      ensures old(users).Keys <= users.Keys
      ensures users == if nearAddress in old(users) then
                         old(users)[nearAddress := old(users)[nearAddress].(
                           firstName := Some(firstName), lastName := Some(lastName),
                           isStudent := Some(isStudent as int), country := Some(country),
                           gitHandler := Some(git), linkedinHandler := Some(linkedin),
                           twitterHandler := Some(twitter))]
                       else old(users)
      ensures r.Ok? <==> nearAddress in old(users)
      ensures r.Ok? ==> r.value == User(nearAddress, old(users)[nearAddress].email, firstName, lastName,
                                        isStudent as int, country, git, linkedin, twitter, "", true)
      ensures Users !in tables ==> r == Err(NoSuchTable(Users))
      ensures Users in tables && nearAddress !in old(users) ==> r == Err(NoneError())
    {
      // The UPDATE's own failure is discarded (`let _ =`); the read-back reports it.
      if nearAddress in users {
        users := users[nearAddress := users[nearAddress].(
          firstName := Some(firstName), lastName := Some(lastName),
          isStudent := Some(isStudent as int), country := Some(country),
          gitHandler := Some(git), linkedinHandler := Some(linkedin),
          twitterHandler := Some(twitter))];
      }
      r := GetUser(nearAddress);
    }

    // ------------------------------------------------------- submissions

    /** `get_submission`. */
    function GetSubmission(uuid: int): (r: Result<Submission>)
      reads this
      ensures r.Ok? <==> Submissions in tables && uuid in submissions
      ensures r.Ok? ==> r.value == SubmissionOf(submissions[uuid])
      ensures Submissions !in tables ==> r == Err(NoSuchTable(Submissions))
      ensures Submissions in tables && uuid !in submissions ==> r == Err(NoneError())
    {
      if Submissions !in tables then Err(NoSuchTable(Submissions))
      else if uuid !in submissions then Err(NoneError())
      else SubmissionFromRow(SubmissionColumns(submissions[uuid]))
    }

    /** `get_user_submission_for_event`: the first row, in table order, submitted
        by `address` for `eventId`. */
    function GetUserSubmissionForEvent(address: string, eventId: int): (r: Result<Submission>)
      reads this
      requires Valid()
      ensures r.Ok? <==> Submissions in tables && HasSubmission(address, eventId)
      ensures Submissions !in tables ==> r == Err(NoSuchTable(Submissions))
      ensures Submissions in tables && !HasSubmission(address, eventId) ==> r == Err(NoneError())
      ensures r.Ok? ==> && r.value.uuid in submissions
                        && r.value == SubmissionOf(submissions[r.value.uuid])
                        && r.value.submitBy == address && r.value.eventId == eventId
                        && r.value.success
      ensures r.Ok? ==> forall id :: (id in submissions && submissions[id].submitBy == address
                                      && submissions[id].eventId == eventId) ==> r.value.uuid <= id
    {
      if Submissions !in tables then Err(NoSuchTable(Submissions))
      else
        var keep := ByUserForEvent(address, eventId);
        var matches := Filter(SubmissionRows(), keep);
        FirstMatch(submissions, 1, nextSubmissionId, keep, SubmissionRowId);
        if |matches| == 0 then Err(NoneError())
        else SubmissionFromRow(SubmissionColumns(matches[0]))
    }

    /** `add_submission`: inserts a draft under the next AUTOINCREMENT id and reads
        back the row `last_insert_rowid()` names. */
    method AddSubmission(eventId: int, name: string, description: string, thumbnail: string,
                         git: string, liveUrl: string, videoUrl: string, submitBy: string)
      returns (r: Result<Submission>)
      requires Valid()
      modifies this`submissions, this`nextSubmissionId
      ensures Valid()
      ensures r.Ok? <==> Submissions in tables
      ensures Submissions !in tables ==> r == Err(NoSuchTable(Submissions))
      ensures r.Err? ==> submissions == old(submissions) && nextSubmissionId == old(nextSubmissionId)
      ensures r.Ok? ==> && old(nextSubmissionId) !in old(submissions)
                        && nextSubmissionId == old(nextSubmissionId) + 1
                        && submissions == old(submissions)[old(nextSubmissionId) := SubmissionRow(
                             old(nextSubmissionId), eventId, name, description, thumbnail, git,
                             liveUrl, videoUrl, submitBy, DRAFT)]
      ensures r.Ok? ==> r.value == Submission(old(nextSubmissionId), eventId, name, description, thumbnail,
                                              git, liveUrl, videoUrl, submitBy, DRAFT, "", "", true)
    {
      if Submissions !in tables {
        return Err(NoSuchTable(Submissions));
      }
      var uuid := nextSubmissionId;
      submissions := submissions[uuid := SubmissionRow(uuid, eventId, name, description, thumbnail,
                                                       git, liveUrl, videoUrl, submitBy, DRAFT)];
      nextSubmissionId := nextSubmissionId + 1;
      r := GetSubmission(uuid);
    }

    /** `update_submission`: replaces the six content columns of the row with this
        uuid, whatever its status, and reads it back. */
    method UpdateSubmission(uuid: int, name: string, description: string, thumbnail: string,
                            gitUrl: string, demoUrl: string, videoUrl: string)
      returns (r: Result<Submission>)
      requires Valid()
      modifies this`submissions
      ensures Valid()
      ensures submissions == if uuid in old(submissions) then
                               old(submissions)[uuid := old(submissions)[uuid].(
                                 projectName := name, description := description, thumbnail := thumbnail,
                                 gitUrl := gitUrl, liveDemoUrl := demoUrl, videoDemoUrl := videoUrl)]
                             else old(submissions)
      ensures r.Ok? <==> uuid in old(submissions)
      ensures r.Ok? ==> r.value == SubmissionOf(submissions[uuid])
      ensures r.Ok? ==> && r.value.eventId == old(submissions)[uuid].eventId
                        && r.value.submitBy == old(submissions)[uuid].submitBy
                        && r.value.status == old(submissions)[uuid].status
      ensures Submissions !in tables ==> r == Err(NoSuchTable(Submissions))
      ensures Submissions in tables && uuid !in old(submissions) ==> r == Err(NoneError())
    {
      if uuid in submissions {
        submissions := submissions[uuid := submissions[uuid].(
          projectName := name, description := description, thumbnail := thumbnail,
          gitUrl := gitUrl, liveDemoUrl := demoUrl, videoDemoUrl := videoUrl)];
      }
      r := GetSubmission(uuid);
    }

    /** `submit_submission`: sets the row's status to 2 and reads it back.  A row
        already handed in is left as it is. */
    method SubmitSubmission(uuid: int) returns (r: Result<Submission>)
      requires Valid()
      modifies this`submissions
      ensures Valid()
      ensures submissions == if uuid in old(submissions) then
                               old(submissions)[uuid := old(submissions)[uuid].(status := SUBMITTED)]
                             else old(submissions)
      ensures uuid in old(submissions) && old(submissions)[uuid].status == SUBMITTED ==>
                submissions == old(submissions)
      ensures r.Ok? <==> uuid in old(submissions)
      ensures r.Ok? ==> r.value == SubmissionOf(old(submissions)[uuid]).(status := SUBMITTED)
      ensures Submissions !in tables ==> r == Err(NoSuchTable(Submissions))
      ensures Submissions in tables && uuid !in old(submissions) ==> r == Err(NoneError())
    {
      if uuid in submissions {
        submissions := submissions[uuid := submissions[uuid].(status := SUBMITTED)];
      }
      r := GetSubmission(uuid);
    }

    /** `get_submissions`: every submission, in table order. */
    method GetSubmissions() returns (r: Result<seq<Submission>>)
      requires Valid()
      ensures r.Ok? <==> Submissions in tables
      ensures Submissions !in tables ==> r == Err(NoSuchTable(Submissions))
      ensures r.Ok? ==> r.value == SubmissionsOf(SubmissionRows())
      ensures r.Ok? ==> forall id :: id in submissions ==> SubmissionOf(submissions[id]) in r.value
      ensures r.Ok? ==> forall s :: s in r.value ==> s.uuid in submissions && s == SubmissionOf(submissions[s.uuid])
      ensures r.Ok? ==> Ascending(r.value, SubmissionId)
    {
      if Submissions !in tables {
        return Err(NoSuchTable(Submissions));
      }
      var rows := SubmissionRows();
      r := DrainSubmissions(SubmissionCursor(rows));
      CollectStoredSubmissions(rows);
      var every := (row: SubmissionRow) => true;
      SubmissionListFacts(rows, every);
      FilterAll(rows, every);
    }

    /** `get_submissions_by_event`: the submissions for one event, in table order. */
    method GetSubmissionsByEvent(eventId: int) returns (r: Result<seq<Submission>>)
      requires Valid()
      ensures r.Ok? <==> Submissions in tables
      ensures Submissions !in tables ==> r == Err(NoSuchTable(Submissions))
      ensures r.Ok? ==> r.value == SubmissionsOf(Filter(SubmissionRows(), ForEvent(eventId)))
      ensures r.Ok? ==> forall id :: id in submissions && submissions[id].eventId == eventId ==>
                          SubmissionOf(submissions[id]) in r.value
      ensures r.Ok? ==> forall s :: s in r.value ==> && s.eventId == eventId && s.uuid in submissions
                                                     && s == SubmissionOf(submissions[s.uuid])
      ensures r.Ok? ==> Ascending(r.value, SubmissionId)
    {
      if Submissions !in tables {
        return Err(NoSuchTable(Submissions));
      }
      var keep := ForEvent(eventId);
      var rows := Filter(SubmissionRows(), keep);
      r := DrainSubmissions(SubmissionCursor(rows));
      CollectStoredSubmissions(rows);
      SubmissionListFacts(SubmissionRows(), keep);
    }

    /** What a filtered scan of `submissions` returns: exactly the kept rows, each
        as its struct, in ascending uuid order. */
    lemma SubmissionListFacts(all: seq<SubmissionRow>, keep: SubmissionRow -> bool)
      requires Valid()
      requires all == SubmissionRows()
      ensures var out := SubmissionsOf(Filter(all, keep));
        && (forall id :: id in submissions && keep(submissions[id]) ==> SubmissionOf(submissions[id]) in out)
        && (forall s :: s in out ==> && s.uuid in submissions && keep(submissions[s.uuid])
                                     && s == SubmissionOf(submissions[s.uuid]))
        && Ascending(out, SubmissionId)
    {
      var rows := Filter(all, keep);
      var out := SubmissionsOf(rows);
      forall id | id in submissions && keep(submissions[id])
        ensures SubmissionOf(submissions[id]) in out
      {
        assert submissions[id] in all;
        assert submissions[id] in rows;
        var i :| 0 <= i < |rows| && rows[i] == submissions[id];
        assert out[i] == SubmissionOf(submissions[id]);
      }
      forall s | s in out
        ensures s.uuid in submissions && keep(submissions[s.uuid]) && s == SubmissionOf(submissions[s.uuid])
      {
        var i :| 0 <= i < |out| && out[i] == s;
        assert rows[i] in rows;
        var k :| 1 <= k < nextSubmissionId && k in submissions && submissions[k] == rows[i];
      }
      InKeyOrderAscending(submissions, 1, nextSubmissionId, SubmissionRowId);
      FilterAscending(all, keep, SubmissionRowId);
      assert Ascending(out, SubmissionId) by {
        forall i, j | 0 <= i < j < |out|
          ensures SubmissionId(out[i]) < SubmissionId(out[j])
        {
          assert SubmissionRowId(rows[i]) < SubmissionRowId(rows[j]);
        }
      }
    }

    // ------------------------------------------------------------ events

    /** `get_event`. */
    function GetEvent(id: int): (r: Result<Event>)
      reads this
      ensures r.Ok? <==> Events in tables && id in events
      ensures r.Ok? ==> r.value == EventOf(events[id])
      ensures Events !in tables ==> r == Err(NoSuchTable(Events))
      ensures Events in tables && id !in events ==> r == Err(NoneError())
    {
      if Events !in tables then Err(NoSuchTable(Events))
      else if id !in events then Err(NoneError())
      else EventFromRow(EventColumns(events[id]))
    }

    /** What `get_event` returns as the source reads the row: the stored event with
        its title and its type exchanged (compare `GetEvent`, which reads each
        column under its own name). */
    lemma EventReadAsWritten(id: int)
      requires Events in tables && id in events
      ensures var e := GetEvent(id).value;
        EventFromRowAsWritten(EventColumns(events[id])) == Ok(e.(title := e.eventType, eventType := e.title))
    {
      EventRoundTripAsWritten(events[id]);
    }

    /** `add_event`: inserts an open event under the next AUTOINCREMENT id and reads
        it back. */
    method AddEvent(title: string, eventType: string, startDate: string, endDate: string, logo: string)
      returns (r: Result<Event>)
      requires Valid()
      modifies this`events, this`nextEventId
      ensures Valid()
      ensures old(events).Keys <= events.Keys
      ensures r.Ok? <==> Events in tables
      ensures Events !in tables ==> r == Err(NoSuchTable(Events))
      ensures r.Err? ==> events == old(events) && nextEventId == old(nextEventId)
      ensures r.Ok? ==> && old(nextEventId) !in old(events)
                        && nextEventId == old(nextEventId) + 1
                        && events == old(events)[old(nextEventId) := EventRow(
                             old(nextEventId), eventType, title, startDate, endDate, logo, OPEN)]
      ensures r.Ok? ==> r.value == Event(old(nextEventId), title, eventType, startDate, endDate, logo, OPEN, "", true)
    {
      if Events !in tables {
        return Err(NoSuchTable(Events));
      }
      var id := nextEventId;
      events := events[id := EventRow(id, eventType, title, startDate, endDate, logo, OPEN)];
      nextEventId := nextEventId + 1;
      r := GetEvent(id);
    }

    /** `update_event`: replaces the five descriptive columns of the event, whatever
        its status, and reads it back. */
    method UpdateEvent(id: int, title: string, eventType: string, startDate: string, endDate: string, logo: string)
      returns (r: Result<Event>)
      requires Valid()
      modifies this`events
      ensures Valid()
      ensures old(events).Keys <= events.Keys
      ensures events == if id in old(events) then
                          old(events)[id := old(events)[id].(title := title, eventType := eventType,
                            startDate := startDate, endDate := endDate, logo := logo)]
                        else old(events)
      ensures r.Ok? <==> id in old(events)
      ensures r.Ok? ==> r.value == Event(id, title, eventType, startDate, endDate, logo,
                                         old(events)[id].status, "", true)
      ensures Events !in tables ==> r == Err(NoSuchTable(Events))
      ensures Events in tables && id !in old(events) ==> r == Err(NoneError())
    {
      if id in events {
        events := events[id := events[id].(title := title, eventType := eventType,
          startDate := startDate, endDate := endDate, logo := logo)];
      }
      r := GetEvent(id);
    }

    /** `close_event`: sets the event's status to 2 and reads it back.  Closing a
        closed event changes nothing. */
    method CloseEvent(id: int) returns (r: Result<Event>)
      requires Valid()
      modifies this`events
      ensures Valid()
      ensures old(events).Keys <= events.Keys
      ensures events == if id in old(events) then old(events)[id := old(events)[id].(status := CLOSED)]
                        else old(events)
      ensures id in old(events) && old(events)[id].status == CLOSED ==> events == old(events)
      ensures r.Ok? <==> id in old(events)
      ensures r.Ok? ==> r.value == EventOf(old(events)[id]).(status := CLOSED)
      ensures Events !in tables ==> r == Err(NoSuchTable(Events))
      ensures Events in tables && id !in old(events) ==> r == Err(NoneError())
    {
      if id in events {
        events := events[id := events[id].(status := CLOSED)];
      }
      r := GetEvent(id);
    }

    /** `get_events`: every event, in table order. */
    method GetEvents() returns (r: Result<seq<Event>>)
      requires Valid()
      ensures r.Ok? <==> Events in tables
      ensures Events !in tables ==> r == Err(NoSuchTable(Events))
      ensures r.Ok? ==> r.value == EventsOf(EventRows())
      ensures r.Ok? ==> forall id :: id in events ==> EventOf(events[id]) in r.value
      ensures r.Ok? ==> forall e :: e in r.value ==> e.id in events && e == EventOf(events[e.id])
      ensures r.Ok? ==> Ascending(r.value, EventId)
    {
      if Events !in tables {
        return Err(NoSuchTable(Events));
      }
      var rows := EventRows();
      r := DrainEvents(EventCursor(rows));
      CollectStoredEvents(rows);
      var every := (row: EventRow) => true;
      EventListFacts(rows, every);
      FilterAll(rows, every);
    }

    /** `get_live_events`: exactly the open events, in table order. */
    method GetLiveEvents() returns (r: Result<seq<Event>>)
      requires Valid()
      ensures r.Ok? <==> Events in tables
      ensures Events !in tables ==> r == Err(NoSuchTable(Events))
      ensures r.Ok? ==> r.value == EventsOf(Filter(EventRows(), IsOpenRow))
      ensures r.Ok? ==> forall id :: id in events && events[id].status == OPEN ==> EventOf(events[id]) in r.value
      ensures r.Ok? ==> forall e :: e in r.value ==> && e.status == OPEN && e.id in events
                                                     && e == EventOf(events[e.id])
      ensures r.Ok? ==> Ascending(r.value, EventId)
    {
      if Events !in tables {
        return Err(NoSuchTable(Events));
      }
      var rows := Filter(EventRows(), IsOpenRow);
      r := DrainEvents(EventCursor(rows));
      CollectStoredEvents(rows);
      EventListFacts(EventRows(), IsOpenRow);
    }

    /** What a filtered scan of `events` returns: exactly the kept rows, each as its
        struct, in ascending id order. */
    lemma EventListFacts(all: seq<EventRow>, keep: EventRow -> bool)
      requires Valid()
      requires all == EventRows()
      ensures var out := EventsOf(Filter(all, keep));
        && (forall id :: id in events && keep(events[id]) ==> EventOf(events[id]) in out)
        && (forall e :: e in out ==> && e.id in events && keep(events[e.id])
                                     && e == EventOf(events[e.id]))
        && Ascending(out, EventId)
    {
      var rows := Filter(all, keep);
      var out := EventsOf(rows);
      forall id | id in events && keep(events[id])
        ensures EventOf(events[id]) in out
      {
        assert events[id] in all;
        assert events[id] in rows;
        var i :| 0 <= i < |rows| && rows[i] == events[id];
        assert out[i] == EventOf(events[id]);
      }
      forall e | e in out
        ensures e.id in events && keep(events[e.id]) && e == EventOf(events[e.id])
      {
        var i :| 0 <= i < |out| && out[i] == e;
        assert rows[i] in rows;
        var k :| 1 <= k < nextEventId && k in events && events[k] == rows[i];
      }
      InKeyOrderAscending(events, 1, nextEventId, EventRowId);
      FilterAscending(all, keep, EventRowId);
      assert Ascending(out, EventId) by {
        forall i, j | 0 <= i < j < |out|
          ensures EventId(out[i]) < EventId(out[j])
        {
          assert EventRowId(rows[i]) < EventRowId(rows[j]);
        }
      }
    }
  }
}
