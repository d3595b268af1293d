/**
 * The records of src/db.rs: the rows the three tables hold, the structs the
 * service returns (each with its `err_msg` and `success` fields), the
 * mapping of a fetched row to a struct (`from_row`) and the flattening of a
 * result into a struct (`from_res`).
 */
module Records {
  import opened Sqlite

  /** Event status: open for submissions, or closed. */
  const OPEN: int := 1
  const CLOSED: int := 2

  /** Submission status: a draft, or handed in. */
  const DRAFT: int := 1
  const SUBMITTED: int := 2

  /** `get_none_error`: the error every missing row or missing required column yields. */
  function NoneError(): (e: Error)
    ensures e.code.None?
    ensures ErrorText(e) == "Value doesn't exist"
  {
    Error(None, Some("Value doesn't exist"))
  }

  function TextColumn(o: Option<string>): Value
  {
    if o.Some? then Text(o.value) else Null
  }

  function IntegerColumn(o: Option<int>): Value
  {
    if o.Some? then Integer(o.value) else Null
  }

  // ---------------------------------------------------------------- users

  /** A row of `users`.  A row is inserted with its address and email only, so
      the profile columns hold NULL until the first profile update. */
  datatype UserRow = UserRow(
    nearAddress: string,
    email: string,
    firstName: Option<string>,
    lastName: Option<string>,
    isStudent: Option<int>,
    country: Option<string>,
    gitHandler: Option<string>,
    linkedinHandler: Option<string>,
    twitterHandler: Option<string>)

  /** The `User` struct the service returns. */
  datatype User = User(
    nearAddress: string,
    email: string,
    firstName: string,
    lastName: string,
    isStudent: int,
    country: string,
    gitHandler: string,
    linkedinHandler: string,
    twitterHandler: string,
    errMsg: string,
    success: bool)

  /** `User::default()`. */
  function DefaultUser(): User
  {
    User("", "", "", "", 0, "", "", "", "", "", false)
  }

  /** The struct a stored user reads back as: a NULL text column as "", a NULL
      student flag as 0, and marked successful. */
  function UserOf(row: UserRow): User
  {
    User(row.nearAddress, row.email, OrEmpty(row.firstName), OrEmpty(row.lastName),
      OrZero(row.isStudent), OrEmpty(row.country), OrEmpty(row.gitHandler),
      OrEmpty(row.linkedinHandler), OrEmpty(row.twitterHandler), "", true)
  }

  /** `select *` on `users`: the columns in declaration order.  Reading them back
      with `from_row` gives exactly the stored user. */
  function UserColumns(row: UserRow): (cols: seq<Value>)
    ensures |cols| == 9
    ensures UserFromRow(cols) == Ok(UserOf(row))
  {
    [Text(row.nearAddress), Text(row.email), TextColumn(row.firstName), TextColumn(row.lastName),
     IntegerColumn(row.isStudent), TextColumn(row.country), TextColumn(row.gitHandler),
     TextColumn(row.linkedinHandler), TextColumn(row.twitterHandler)]
  }

  /** `User::from_row`: the address and email columns are required, every other
      column falls back to its default. */
  function UserFromRow(row: seq<Value>): (r: Result<User>)
    requires |row| >= 9
    ensures r.Ok? <==> row[0].Text? && row[1].Text?
    ensures r.Err? ==> r.error == NoneError()
    ensures r.Ok? ==> r.value.success && r.value.errMsg == ""
    ensures r.Ok? ==> r.value.nearAddress == row[0].s && r.value.email == row[1].s
    ensures r.Ok? ==> r.value.firstName == (if row[2].Text? then row[2].s else "")
    ensures r.Ok? ==> r.value.lastName == (if row[3].Text? then row[3].s else "")
    ensures r.Ok? ==> r.value.isStudent == (if row[4].Integer? then row[4].i else 0)
    ensures r.Ok? ==> r.value.country == (if row[5].Text? then row[5].s else "")
    ensures r.Ok? ==> r.value.gitHandler == (if row[6].Text? then row[6].s else "")
    ensures r.Ok? ==> r.value.linkedinHandler == (if row[7].Text? then row[7].s else "")
    ensures r.Ok? ==> r.value.twitterHandler == (if row[8].Text? then row[8].s else "")
  {
    var nearAddress :- OkOr(AsString(row[0]), NoneError());
    var email :- OkOr(AsString(row[1]), NoneError());
    Ok(User(nearAddress, email, OrEmpty(AsString(row[2])), OrEmpty(AsString(row[3])),
      OrZero(AsInteger(row[4])), OrEmpty(AsString(row[5])), OrEmpty(AsString(row[6])),
      OrEmpty(AsString(row[7])), OrEmpty(AsString(row[8])), "", true))
  }

  /** `User::from_res`: a success passes through, a failure becomes the default
      struct carrying the error's text. */
  function UserFromRes(res: Result<User>): (u: User)
    ensures u.success <==> res.Ok? && res.value.success
    ensures res.Ok? ==> u == res.value
    ensures res.Err? ==> u == DefaultUser().(errMsg := ErrorText(res.error))
  {
    match res
    case Ok(v) => v
    case Err(e) => DefaultUser().(errMsg := ErrorText(e), success := false)
  }

  // ---------------------------------------------------------- submissions

  /** A row of `submissions` (the `created_at` timestamp is not modelled).  Every
      insert supplies all the other columns, so none of them is ever NULL. */
  datatype SubmissionRow = SubmissionRow(
    uuid: int,
    eventId: int,
    projectName: string,
    description: string,
    thumbnail: string,
    gitUrl: string,
    liveDemoUrl: string,
    videoDemoUrl: string,
    submitBy: string,
    status: int)

  /** The `Submission` struct the service returns. */
  datatype Submission = Submission(
    uuid: int,
    eventId: int,
    projectName: string,
    description: string,
    thumbnail: string,
    gitUrl: string,
    liveDemoUrl: string,
    videoDemoUrl: string,
    submitBy: string,
    status: int,
    createdBy: string,
    errMsg: string,
    success: bool)

  /** `Submission::default()`. */
  function DefaultSubmission(): Submission
  {
    Submission(0, 0, "", "", "", "", "", "", "", 0, "", "", false)
  }

  /** The failed struct `from_res` makes of an error with text `msg`. */
  function FailedSubmission(msg: string): Submission
  {
    DefaultSubmission().(errMsg := msg)
  }

  /** The struct a stored submission reads back as (`created_by` is never filled in). */
  function SubmissionOf(row: SubmissionRow): Submission
  {
    Submission(row.uuid, row.eventId, row.projectName, row.description, row.thumbnail,
      row.gitUrl, row.liveDemoUrl, row.videoDemoUrl, row.submitBy, row.status, "", "", true)
  }

  /** `select *` on `submissions`, up to `created_at`.  Reading the columns back
      with `from_row` gives exactly the stored submission. */
  function SubmissionColumns(row: SubmissionRow): (cols: seq<Value>)
    ensures |cols| == 10
    ensures SubmissionFromRow(cols) == Ok(SubmissionOf(row))
  {
    [Integer(row.uuid), Integer(row.eventId), Text(row.projectName), Text(row.description),
     Text(row.thumbnail), Text(row.gitUrl), Text(row.liveDemoUrl), Text(row.videoDemoUrl),
     Text(row.submitBy), Integer(row.status)]
  }

  /** `Submission::from_row`: uuid, event id, project name and description are
      required, every other column falls back to its default. */
  function SubmissionFromRow(row: seq<Value>): (r: Result<Submission>)
    requires |row| >= 10
    ensures r.Ok? <==> row[0].Integer? && row[1].Integer? && row[2].Text? && row[3].Text?
    ensures r.Err? ==> r.error == NoneError()
    ensures r.Ok? ==> r.value.success && r.value.errMsg == "" && r.value.createdBy == ""
    ensures r.Ok? ==> r.value.uuid == row[0].i && r.value.eventId == row[1].i
    ensures r.Ok? ==> r.value.projectName == row[2].s && r.value.description == row[3].s
    ensures r.Ok? ==> r.value.thumbnail == (if row[4].Text? then row[4].s else "")
    ensures r.Ok? ==> r.value.gitUrl == (if row[5].Text? then row[5].s else "")
    ensures r.Ok? ==> r.value.liveDemoUrl == (if row[6].Text? then row[6].s else "")
    ensures r.Ok? ==> r.value.videoDemoUrl == (if row[7].Text? then row[7].s else "")
    ensures r.Ok? ==> r.value.submitBy == (if row[8].Text? then row[8].s else "")
    ensures r.Ok? ==> r.value.status == (if row[9].Integer? then row[9].i else 0)
  {
    var uuid :- OkOr(AsInteger(row[0]), NoneError());
    var eventId :- OkOr(AsInteger(row[1]), NoneError());
    var projectName :- OkOr(AsString(row[2]), NoneError());
    var description :- OkOr(AsString(row[3]), NoneError());
    Ok(Submission(uuid, eventId, projectName, description, OrEmpty(AsString(row[4])),
      OrEmpty(AsString(row[5])), OrEmpty(AsString(row[6])), OrEmpty(AsString(row[7])),
      OrEmpty(AsString(row[8])), OrZero(AsInteger(row[9])), "", "", true))
  }

  /** `Submission::from_res`. */
  function SubmissionFromRes(res: Result<Submission>): (s: Submission)
    ensures s.success <==> res.Ok? && res.value.success
    ensures res.Ok? ==> s == res.value
    ensures res.Err? ==> s == FailedSubmission(ErrorText(res.error))
  {
    match res
    case Ok(v) => v
    case Err(e) => DefaultSubmission().(errMsg := ErrorText(e), success := false)
  }

  // --------------------------------------------------------------- events

  /** A row of `events`, fields in column order: the `type` column precedes `title`.
      Every insert supplies all columns, so none of them is ever NULL. */
  datatype EventRow = EventRow(
    id: int,
    eventType: string,
    title: string,
    startDate: string,
    endDate: string,
    logo: string,
    status: int)

  /** The `Event` struct the service returns. */
  datatype Event = Event(
    id: int,
    title: string,
    eventType: string,
    startDate: string,
    endDate: string,
    logo: string,
    status: int,
    errMsg: string,
    success: bool)

  /** `Event::default()`. */
  function DefaultEvent(): Event
  {
    Event(0, "", "", "", "", "", 0, "", false)
  }

  /** The struct a stored event reads back as. */
  function EventOf(row: EventRow): Event
  {
    Event(row.id, row.title, row.eventType, row.startDate, row.endDate, row.logo, row.status, "", true)
  }

  /** `select *` on `events`: the columns in declaration order
      (id, type, title, start_date, end_date, logo, status). */
  function EventColumns(row: EventRow): (cols: seq<Value>)
    ensures |cols| == 7
    ensures EventFromRow(cols) == Ok(EventOf(row))
  {
    [Integer(row.id), Text(row.eventType), Text(row.title), Text(row.startDate),
     Text(row.endDate), Text(row.logo), Integer(row.status)]
  }

  /** `Event::from_row` as the source writes it: it reads the title from column 1
      and the type from column 2, which the table declares the other way round. */
  function EventFromRowAsWritten(row: seq<Value>): (r: Result<Event>)
    requires |row| >= 7
    ensures r.Ok? <==> row[0].Integer? && row[1].Text? && row[2].Text? && row[6].Integer?
    ensures r.Err? ==> r.error == NoneError()
    ensures r.Ok? ==> r.value.title == row[1].s && r.value.eventType == row[2].s
    ensures r.Ok? ==> r.value.success && r.value.errMsg == ""
    ensures r.Ok? ==> r.value.id == row[0].i && r.value.status == row[6].i
    ensures r.Ok? ==> r.value.startDate == (if row[3].Text? then row[3].s else "")
    ensures r.Ok? ==> r.value.endDate == (if row[4].Text? then row[4].s else "")
    ensures r.Ok? ==> r.value.logo == (if row[5].Text? then row[5].s else "")
  {
    var id :- OkOr(AsInteger(row[0]), NoneError());
    var title :- OkOr(AsString(row[1]), NoneError());
    var eventType :- OkOr(AsString(row[2]), NoneError());
    var startDate := OrEmpty(AsString(row[3]));
    var endDate := OrEmpty(AsString(row[4]));
    var logo := OrEmpty(AsString(row[5]));
    var status :- OkOr(AsInteger(row[6]), NoneError());
    Ok(Event(id, title, eventType, startDate, endDate, logo, status, "", true))
  }

  /** The as-written mapping reads an event back correctly exactly when its title
      and its type are the same text: every other event comes back with the two
      swapped. */
  lemma EventRoundTripAsWritten(row: EventRow)
    ensures EventFromRowAsWritten(EventColumns(row)) == Ok(EventOf(row)) <==> row.title == row.eventType
    ensures EventFromRowAsWritten(EventColumns(row)) == Ok(EventOf(row).(title := row.eventType, eventType := row.title))
  {
  }

  /** The event that shows the swap: added with title "Hack" and type "online",
      it reads back with title "online". */
  lemma EventSwapWitness()
    ensures var row := EventRow(1, "online", "Hack", "2024-01-01", "2024-01-02", "logo.png", OPEN);
      EventFromRowAsWritten(EventColumns(row)).value.title == "online"
  {
  }

  /** `Event::from_row` with each column read under its own name: id, title, type
      and status are required, the dates and the logo fall back to "". */
  function EventFromRow(row: seq<Value>): (r: Result<Event>)
    requires |row| >= 7
    ensures r.Ok? <==> row[0].Integer? && row[1].Text? && row[2].Text? && row[6].Integer?
    ensures r.Err? ==> r.error == NoneError()
    ensures r.Ok? ==> r.value.eventType == row[1].s && r.value.title == row[2].s
    ensures r.Ok? ==> r.value.success && r.value.errMsg == ""
    ensures r.Ok? ==> r.value.id == row[0].i && r.value.status == row[6].i
    ensures r.Ok? ==> r.value.startDate == (if row[3].Text? then row[3].s else "")
    ensures r.Ok? ==> r.value.endDate == (if row[4].Text? then row[4].s else "")
    ensures r.Ok? ==> r.value.logo == (if row[5].Text? then row[5].s else "")
  {
    var id :- OkOr(AsInteger(row[0]), NoneError());
    var eventType :- OkOr(AsString(row[1]), NoneError());
    var title :- OkOr(AsString(row[2]), NoneError());
    var startDate := OrEmpty(AsString(row[3]));
    var endDate := OrEmpty(AsString(row[4]));
    var logo := OrEmpty(AsString(row[5]));
    var status :- OkOr(AsInteger(row[6]), NoneError());
    Ok(Event(id, title, eventType, startDate, endDate, logo, status, "", true))
  }

  /** `Event::from_res`. */
  function EventFromRes(res: Result<Event>): (e: Event)
    ensures e.success <==> res.Ok? && res.value.success
    ensures res.Ok? ==> e == res.value
    ensures res.Err? ==> e == DefaultEvent().(errMsg := ErrorText(res.error))
  {
    match res
    case Ok(v) => v
    case Err(err) => DefaultEvent().(errMsg := ErrorText(err), success := false)
  }
}
