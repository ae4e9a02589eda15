/** Request validation, and what it guarantees about everything that is ever stored. */
module Validation {
  import opened Prelude
  import opened Text
  import opened Tasks
  import opened TaskTable
  import opened TaskService
  import Statements
  import Database

  const ID_INVALID := "id must be a positive number"
  const TITLE_REQUIRED := "title is required"
  const STATUS_REQUIRED := "status is required"
  const CURSOR_NEGATIVE := "cursor must not be negative"
  const UPDATE_EMPTY := "at least one field must be provided"

  const STATUSES := [PENDING, IN_PROGRESS, DONE]

  function TooLongMessage(field: string, limit: nat): string {
    field + " must not exceed " + Decimal(limit) + " characters"
  }

  /** An empty message means that the value is in order. */
  function CheckID(id: int): (m: string)
    ensures m == if id >= 1 then "" else "id must be a positive number"
  {
    if id < 1 then ID_INVALID else ""
  }

  function CheckTitle(title: string): (m: string)
    ensures m == "" <==> 1 <= RuneCount(title) <= 200
  {
    if title == "" then TITLE_REQUIRED
    else if RuneCount(title) > MAX_TITLE_LEN then TooLongMessage("title", MAX_TITLE_LEN)
    else ""
  }

  function CheckDescription(description: string): (m: string)
    ensures m == "" <==> RuneCount(description) <= 2000
  {
    if RuneCount(description) > MAX_DESCRIPTION_LEN then TooLongMessage("description", MAX_DESCRIPTION_LEN) else ""
  }

  function CheckAssignee(assignee: string): (m: string)
    ensures m == "" <==> RuneCount(assignee) <= 100
  {
    if RuneCount(assignee) > MAX_ASSIGNEE_LEN then TooLongMessage("assignee", MAX_ASSIGNEE_LEN) else ""
  }

  function CheckStatus(status: string, required: bool): (m: string)
    ensures m == "" <==> (status == "" && !required) || ValidStatus(status)
    ensures ValidStatus(status) <==> status in {"pending", "in_progress", "done"}
  {
    if status == "" then if required then STATUS_REQUIRED else ""
    else if !ValidStatus(status) then "status must be one of: " + Joined(STATUSES)
    else ""
  }

  function CheckCursor(cursor: int): (m: string)
    ensures m == if cursor >= 0 then "" else "cursor must not be negative"
  {
    if cursor < 0 then CURSOR_NEGATIVE else ""
  }

  function Joined(names: seq<string>): string {
    if names == [] then "" else if |names| == 1 then names[0] else names[0] + ", " + Joined(names[1..])
  }

  // ----- what the messages say -----

  lemma Figures()
    ensures Decimal(100) == "100" && Decimal(200) == "200" && Decimal(2000) == "2000"
  {
    assert Digits(1) == "1" && Digits(10) == "10" && Digits(100) == "100";
    assert Digits(2) == "2" && Digits(20) == "20" && Digits(200) == "200" && Digits(2000) == "2000";
  }

  lemma TitleMessages(title: string)
    ensures title == "" ==> CheckTitle(title) == "title is required"
    ensures RuneCount(title) > 200 ==> CheckTitle(title) == "title must not exceed " + "200" + " characters"
  {
    hide RuneCount, Decimal;
    Figures();
  }

  lemma LengthMessages(text: string)
    ensures RuneCount(text) > 2000 ==> CheckDescription(text) == "description must not exceed " + "2000" + " characters"
    ensures RuneCount(text) > 100 ==> CheckAssignee(text) == "assignee must not exceed " + "100" + " characters"
  {
    hide RuneCount, Decimal;
    Figures();
  }

  lemma StatusMessages(status: string)
    ensures CheckStatus("", true) == "status is required"
    ensures status !in {"", "pending", "in_progress", "done"} ==>
              forall required :: CheckStatus(status, required)
                                 == "status must be one of: " + ("pending" + ", " + ("in_progress" + ", " + "done"))
  {
    var names := STATUSES;
    assert names[1..] == [IN_PROGRESS, DONE] && names[1..][1..] == [DONE];
    assert Joined([DONE]) == DONE && Joined([IN_PROGRESS, DONE]) == IN_PROGRESS + ", " + DONE;
  }

  /** What a complaint can be about; `Body` is the request as a whole. */
  datatype FieldName = Id | Body | Title | Description | Status | Assignee | Cursor

  // ----- which requests are acceptable, stated on their own -----

  predicate AcceptableCreate(req: CreateTaskRequest) {
    && 1 <= RuneCount(req.title) <= MAX_TITLE_LEN
    && RuneCount(req.description) <= MAX_DESCRIPTION_LEN
    && RuneCount(req.assignee) <= MAX_ASSIGNEE_LEN
    && (req.status == "" || ValidStatus(req.status))
  }

  predicate AcceptableUpdate(req: UpdateTaskRequest) {
    && req.id >= 1
    && (req.title.Some? || req.description.Some? || req.status.Some? || req.assignee.Some?)
    && (req.title.Some? ==> 1 <= RuneCount(req.title.value) <= MAX_TITLE_LEN)
    && (req.description.Some? ==> RuneCount(req.description.value) <= MAX_DESCRIPTION_LEN)
    && (req.assignee.Some? ==> RuneCount(req.assignee.value) <= MAX_ASSIGNEE_LEN)
    && (req.status.Some? ==> ValidStatus(req.status.value))
  }

  predicate AcceptableList(req: ListTasksRequest) {
    RuneCount(req.assignee) <= MAX_ASSIGNEE_LEN && (req.status == "" || ValidStatus(req.status)) && req.cursor >= 0
  }

  // ----- the validator -----

  /** Records a complaint, if there is one. */
  method Note(fields: map<FieldName, string>, name: FieldName, message: string) returns (fields': map<FieldName, string>)
    ensures fields' == if message != "" then fields[name := message] else fields
  {
    fields' := fields;
    if message != "" {
      fields' := fields'[name := message];
    }
  }

  /** Rejects exactly the unacceptable requests and names exactly the offending fields. */
  method ValidateCreateRequest(req: CreateTaskRequest) returns (fields: map<FieldName, string>, ok: bool)
    ensures ok <==> AcceptableCreate(req)
    ensures ok <==> fields == map[]
    ensures fields.Keys <= {Title, Description, Assignee, Status}
    ensures Title in fields <==> !(1 <= RuneCount(req.title) <= 200)
    ensures Description in fields <==> RuneCount(req.description) > 2000
    ensures Assignee in fields <==> RuneCount(req.assignee) > 100
    ensures Status in fields <==> req.status !in {"", "pending", "in_progress", "done"}
    ensures Title in fields ==> fields[Title] == CheckTitle(req.title)
    ensures Description in fields ==> fields[Description] == CheckDescription(req.description)
    ensures Assignee in fields ==> fields[Assignee] == CheckAssignee(req.assignee)
    ensures Status in fields ==> fields[Status] == CheckStatus(req.status, false)
  {
    hide RuneCount, CheckTitle, CheckDescription, CheckAssignee, CheckStatus;
    fields := map[];
    fields := Note(fields, Title, CheckTitle(req.title));
    fields := Note(fields, Description, CheckDescription(req.description));
    fields := Note(fields, Assignee, CheckAssignee(req.assignee));
    fields := Note(fields, Status, CheckStatus(req.status, false));
    ok := |fields| == 0;
  }

  /** Whether a patch earns a complaint about field `f`.  An empty patch is judged by its id alone. */
  predicate Offends(req: UpdateTaskRequest, f: FieldName) {
    match f
    case Id => req.id < 1
    case Body => req.IsEmpty()
    case Title => req.title.Some? && !(1 <= RuneCount(req.title.value) <= MAX_TITLE_LEN)
    case Description => req.description.Some? && RuneCount(req.description.value) > MAX_DESCRIPTION_LEN
    case Assignee => req.assignee.Some? && RuneCount(req.assignee.value) > MAX_ASSIGNEE_LEN
    case Status => req.status.Some? && !ValidStatus(req.status.value)
    case Cursor => false
  }

  lemma AcceptableOffendsNowhere(req: UpdateTaskRequest)
    ensures AcceptableUpdate(req) <==> forall f :: !Offends(req, f)
  {
    if AcceptableUpdate(req) {
      forall f ensures !Offends(req, f) {
      }
    } else {
      assert Offends(req, Id) || Offends(req, Body) || Offends(req, Title) || Offends(req, Description)
             || Offends(req, Assignee) || Offends(req, Status);
    }
  }

  /** What the validator says of a field of a patch that it judges. */
  function Complaint(req: UpdateTaskRequest, f: FieldName): (m: string)
    ensures Offends(req, f) ==> m != ""
  {
    match f
    case Id => CheckID(req.id)
    case Body => UPDATE_EMPTY
    case Title => CheckTitle(Supplied(req.title, ""))
    case Description => CheckDescription(Supplied(req.description, ""))
    case Assignee => CheckAssignee(Supplied(req.assignee, ""))
    case Status => CheckStatus(Supplied(req.status, ""), true)
    case Cursor => ""
  }

  /** The same field by field, in figures. */
  lemma OffendsByFields(req: UpdateTaskRequest)
    ensures Offends(req, Id) <==> req.id < 1
    ensures Offends(req, Body) <==> req.title.None? && req.description.None? && req.status.None? && req.assignee.None?
    ensures Offends(req, Title) <==> req.title.Some? && !(1 <= RuneCount(req.title.value) <= 200)
    ensures Offends(req, Description) <==> req.description.Some? && RuneCount(req.description.value) > 2000
    ensures Offends(req, Assignee) <==> req.assignee.Some? && RuneCount(req.assignee.value) > 100
    ensures Offends(req, Status) <==> req.status.Some? && req.status.value !in {"pending", "in_progress", "done"}
    ensures !Offends(req, Cursor)
  {
  }

  lemma ByFields(req: UpdateTaskRequest, fields: map<FieldName, string>)
    requires (forall f :: f in fields <==> Offends(req, f)) && (forall f :: f in fields ==> fields[f] == Complaint(req, f))
    ensures Id in fields <==> req.id < 1
    ensures Body in fields <==> req.title.None? && req.description.None? && req.status.None? && req.assignee.None?
    ensures Title in fields <==> req.title.Some? && !(1 <= RuneCount(req.title.value) <= 200)
    ensures Description in fields <==> req.description.Some? && RuneCount(req.description.value) > 2000
    ensures Assignee in fields <==> req.assignee.Some? && RuneCount(req.assignee.value) > 100
    ensures Status in fields <==> req.status.Some? && req.status.value !in {"pending", "in_progress", "done"}
    ensures Cursor !in fields
    ensures Id in fields ==> fields[Id] == CheckID(req.id)
    ensures Body in fields ==> fields[Body] == "at least one field must be provided"
    ensures Title in fields ==> fields[Title] == CheckTitle(req.title.value)
    ensures Description in fields ==> fields[Description] == CheckDescription(req.description.value)
    ensures Assignee in fields ==> fields[Assignee] == CheckAssignee(req.assignee.value)
    ensures Status in fields ==> fields[Status] == CheckStatus(req.status.value, true)
  {
    hide CheckTitle, CheckDescription, CheckAssignee, CheckStatus, RuneCount;
    OffendsByFields(req);
  }

  /** `fields` are the complaints about those of `judged` that offend. */
  ghost predicate Judged(req: UpdateTaskRequest, fields: map<FieldName, string>, judged: set<FieldName>) {
    && (forall f :: f in fields <==> f in judged && Offends(req, f))
    && (forall f :: f in fields ==> fields[f] == Complaint(req, f))
  }

  /** Judges one field of a patch if it is supplied. */
  method NoteSupplied(ghost req: UpdateTaskRequest, fields: map<FieldName, string>, name: FieldName, supplied: bool,
                      message: string, ghost judged: set<FieldName>)
    returns (fields': map<FieldName, string>)
    requires Judged(req, fields, judged) && (Offends(req, name) <==> supplied && message != "")
    requires supplied ==> message == Complaint(req, name)
    ensures Judged(req, fields', judged + {name})
  {
    fields' := fields;
    if supplied {
      fields' := Note(fields', name, message);
    }
  }

  /** The complaints are about exactly the offending fields, and there are none exactly for acceptable patches. */
  method ValidateUpdateRequest(req: UpdateTaskRequest) returns (fields: map<FieldName, string>, ok: bool)
    ensures ok <==> AcceptableUpdate(req)
    ensures ok <==> fields == map[]
    ensures forall f :: f in fields <==> Offends(req, f)
    ensures forall f :: f in fields ==> fields[f] == Complaint(req, f)
    // field by field
    ensures Id in fields <==> req.id < 1
    ensures Body in fields <==> req.title.None? && req.description.None? && req.status.None? && req.assignee.None?
    ensures Title in fields <==> req.title.Some? && !(1 <= RuneCount(req.title.value) <= 200)
    ensures Description in fields <==> req.description.Some? && RuneCount(req.description.value) > 2000
    ensures Assignee in fields <==> req.assignee.Some? && RuneCount(req.assignee.value) > 100
    ensures Status in fields <==> req.status.Some? && req.status.value !in {"pending", "in_progress", "done"}
    ensures Cursor !in fields
    ensures Id in fields ==> fields[Id] == CheckID(req.id)
    ensures Body in fields ==> fields[Body] == "at least one field must be provided"
    ensures Title in fields ==> fields[Title] == CheckTitle(req.title.value)
    ensures Description in fields ==> fields[Description] == CheckDescription(req.description.value)
    ensures Assignee in fields ==> fields[Assignee] == CheckAssignee(req.assignee.value)
    ensures Status in fields ==> fields[Status] == CheckStatus(req.status.value, true)
  {
    hide CheckTitle, CheckDescription, CheckAssignee, CheckStatus, RuneCount, AcceptableUpdate, ValidStatus;
    AcceptableOffendsNowhere(req);
    fields := map[];
    fields := Note(fields, Id, CheckID(req.id));
    if req.IsEmpty() {
      fields := Note(fields, Body, UPDATE_EMPTY);
      ok := |fields| == 0;
      ByFields(req, fields);
      return;
    }
    fields := JudgeFields(req, fields);
    ByFields(req, fields);
    ok := |fields| == 0;
  }

  method JudgeFields(req: UpdateTaskRequest, fields: map<FieldName, string>) returns (fields': map<FieldName, string>)
    requires Judged(req, fields, {Id})
    ensures Judged(req, fields', {Id, Title, Description, Assignee, Status})
  {
    fields' := NoteSupplied(req, fields, Title, req.title.Some?, CheckTitle(Supplied(req.title, "")), {Id});
    fields' := NoteSupplied(req, fields', Description, req.description.Some?,
                            CheckDescription(Supplied(req.description, "")), {Id, Title});
    fields' := NoteSupplied(req, fields', Assignee, req.assignee.Some?, CheckAssignee(Supplied(req.assignee, "")),
                            {Id, Title, Description});
    fields' := NoteSupplied(req, fields', Status, req.status.Some?, CheckStatus(Supplied(req.status, ""), true),
                            {Id, Title, Description, Assignee});
  }

  method ValidateListRequest(req: ListTasksRequest) returns (fields: map<FieldName, string>, ok: bool)
    ensures ok <==> AcceptableList(req)
    ensures ok <==> fields == map[]
    ensures fields.Keys <= {Assignee, Status, Cursor}
    ensures Assignee in fields <==> RuneCount(req.assignee) > 100
    ensures Status in fields <==> req.status !in {"", "pending", "in_progress", "done"}
    ensures Cursor in fields <==> req.cursor < 0
    ensures Assignee in fields ==> fields[Assignee] == CheckAssignee(req.assignee)
    ensures Status in fields ==> fields[Status] == CheckStatus(req.status, false)
    ensures Cursor in fields ==> fields[Cursor] == CheckCursor(req.cursor)
  {
    fields := map[];
    fields := Note(fields, Assignee, CheckAssignee(req.assignee));
    fields := Note(fields, Status, CheckStatus(req.status, false));
    fields := Note(fields, Cursor, CheckCursor(req.cursor));
    ok := |fields| == 0;
  }

  // ----- what is stored -----

  predicate AllValid(t: Table) {
    forall id :: id in t ==> ValidTask(t[id].task)
  }

  datatype Request = CreateRequest(create: CreateTaskRequest) | UpdateRequest(update: UpdateTaskRequest) | DeleteRequest(id: int)

  /** The repository call a request leads to once the validator accepts it. */
  function Accepted(request: Request): Option<Database.Call> {
    match request
    case CreateRequest(req) => if AcceptableCreate(req) then Some(Database.Create(NewTask(req))) else None
    case UpdateRequest(req) => if AcceptableUpdate(req) then Some(Database.Update(req)) else None
    case DeleteRequest(id) => Some(Database.Delete(id))
  }

  function Handled(d: Database.Db, request: Request, at: int): Database.Db
    requires d.Valid()
  {
    var call := Accepted(request);
    if call.Some? then Database.Served(d, call.value, at).0 else d
  }

  function HandledAll(d: Database.Db, requests: seq<(Request, int)>): Database.Db
    requires d.Valid()
    decreases |requests|
  {
    if requests == [] then d else HandledAll(Handled(d, requests[0].0, requests[0].1), requests[1..])
  }

  lemma NewTaskValid(req: CreateTaskRequest)
    requires AcceptableCreate(req)
    ensures ValidTask(NewTask(req))
  {
    hide RuneCount;
  }

  lemma PatchKeepsValid(task: Task, req: UpdateTaskRequest)
    requires ValidTask(task) && AcceptableUpdate(req)
    ensures ValidTask(Patched(task, req))
  {
    hide RuneCount;
  }

  lemma ValidTaskFits(task: Task)
    requires ValidTask(task)
    ensures Fits(task)
  {
  }

  /** A create that the validator accepted inserts its task, valid under the next id. */
  lemma AcceptedCreate(d: Database.Db, req: CreateTaskRequest, at: int)
    requires d.Valid() && AllValid(d.rows) && AcceptableCreate(req)
    ensures var served := Database.Served(d, Database.Create(NewTask(req)), at);
            AllValid(served.0.rows) && served.1.TaskReply?
  {
    hide RuneCount, AcceptableCreate, NewTask;
    NewTaskValid(req);
    ValidTaskFits(NewTask(req));
  }

  /** An update that the validator accepted leaves a valid row, or finds none. */
  lemma AcceptedUpdate(d: Database.Db, req: UpdateTaskRequest, at: int)
    requires d.Valid() && AllValid(d.rows) && AcceptableUpdate(req)
    ensures var served := Database.Served(d, Database.Update(req), at);
            AllValid(served.0.rows) && (served.1.TaskReply? || served.1 == Database.Failed(Statements.NotFound))
  {
    hide RuneCount, ValidTask, AcceptableUpdate, Patched, Fits;
    if IsLive(d.rows, req.id) {
      PatchKeepsValid(d.rows[req.id].task, req);
      ValidTaskFits(Patched(d.rows[req.id].task, req));
    }
  }

  lemma AcceptedDelete(d: Database.Db, id: int, at: int)
    requires d.Valid() && AllValid(d.rows)
    ensures var served := Database.Served(d, Database.Delete(id), at);
            AllValid(served.0.rows) && served.1 != Database.Failed(Statements.TooLong)
  {
    hide ValidTask;
  }

  /** A validated write never runs into a column width. */
  lemma ValidatedWritesFit(d: Database.Db, request: Request, at: int)
    requires d.Valid() && AllValid(d.rows) && Accepted(request).Some?
    ensures Database.Served(d, Accepted(request).value, at).1 != Database.Failed(Statements.TooLong)
  {
    hide AllValid, AcceptableCreate, AcceptableUpdate, Database.Served;
    match request
    case CreateRequest(req) => AcceptedCreate(d, req, at);
    case UpdateRequest(req) => AcceptedUpdate(d, req, at);
    case DeleteRequest(id) => AcceptedDelete(d, id, at);
  }

  lemma HandledKeepsValid(d: Database.Db, request: Request, at: int)
    requires d.Valid() && AllValid(d.rows)
    ensures AllValid(Handled(d, request, at).rows)
  {
    hide AllValid, AcceptableCreate, AcceptableUpdate, Database.Served;
    if Accepted(request).Some? {
      match request
      case CreateRequest(req) => AcceptedCreate(d, req, at);
      case UpdateRequest(req) => AcceptedUpdate(d, req, at);
      case DeleteRequest(id) => AcceptedDelete(d, id, at);
    }
  }

  /** After any requests every stored row has a title of 1 to 200 characters, a description of at most 2000, an assignee
      of at most 100 and one of the three statuses. */
  lemma {:induction false} StoredDataValid(d: Database.Db, requests: seq<(Request, int)>)
    requires d.Valid() && AllValid(d.rows)
    ensures AllValid(HandledAll(d, requests).rows)
    decreases |requests|
  {
    if requests != [] {
      HandledKeepsValid(d, requests[0].0, requests[0].1);
      StoredDataValid(Handled(d, requests[0].0, requests[0].1), requests[1..]);
    }
  }

  /** From an empty database, in figures. */
  lemma StoredFieldsValid(requests: seq<(Request, int)>)
    ensures var rows := HandledAll(Database.EMPTY_DB, requests).rows;
            forall id :: id in rows ==>
                           && 1 <= RuneCount(rows[id].task.title) <= 200 && RuneCount(rows[id].task.description) <= 2000
                           && RuneCount(rows[id].task.assignee) <= 100
                           && rows[id].task.status in {"pending", "in_progress", "done"}
  {
    StoredDataValid(Database.EMPTY_DB, requests);
  }
}
