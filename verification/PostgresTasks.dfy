/** The Postgres adapter: statements built clause by clause over the soft-delete table. */
module PostgresTasks {
  import opened Prelude
  import opened Text
  import opened Tasks
  import opened TaskTable
  import opened Statements
  import Database

  /** Appends a text condition and its argument. */
  method WithText(where: seq<Condition>, args: seq<Arg>, column: Column, text: string)
    returns (where': seq<Condition>, args': seq<Arg>)
    requires column != IdColumn
    requires forall i :: 0 <= i < |where| ==> ConditionOk(where[i], args)
    ensures args' == args + [Text(text)] && |where'| == |where| + 1
    ensures forall i :: 0 <= i < |where'| ==> ConditionOk(where'[i], args')
    ensures forall task :: Selected(where', args', task) <==> Selected(where, args, task) && Field(task, column) == Text(text)
  {
    args' := args + [Text(text)];
    where' := where + [Equals(column, |args'|)];
    Narrowed(where, args, Equals(column, |args'|), Text(text));
  }

  /** The filters of a request, for a row that is there. */
  predicate Wanted(req: ListTasksRequest, task: Task) {
    && (req.status != "" ==> task.status == req.status)
    && (req.assignee != "" ==> task.assignee == req.assignee)
    && (req.cursor > 0 ==> task.id < req.cursor)
  }

  /** Conditions that select what a request wants, with its limit as the last argument, make its statement. */
  lemma SelectAnswers(t: Table, req: ListTasksRequest, where: seq<Condition>, args: seq<Arg>)
    requires |args| == |where| + 1 && args[|where|] == Number(req.limit)
    requires forall i :: 0 <= i < |where| ==> ConditionOk(where[i], args)
    requires forall task :: Selected(where, args, task) <==> Wanted(req, task)
    ensures Queried(t, Select(where, Some(|args|)), args) ==
            if req.limit < 0 then Err(NegativeLimit) else Ok(ListAnswer(t, req))
  {
    forall id | id in t ensures Selected(where, args, t[id].task) && t[id].Live() <==> Matches(req, t[id]) {
      assert Selected(where, args, t[id].task) <==> Wanted(req, t[id].task);
    }
    assert SelectedIds(t, where, args) == MatchingIds(t, req);
  }

  /** Builds the list statement; its rows over any table are the answer to the request. */
  method BuildSelect(req: ListTasksRequest) returns (query: Select, args: seq<Arg>)
    ensures forall t: Table :: Queried(t, query, args) ==
                               if req.limit < 0 then Err(NegativeLimit) else Ok(ListAnswer(t, req))
  {
    var where: seq<Condition> := [];
    args := [];
    if req.status != "" {
      where, args := WithText(where, args, StatusColumn, req.status);
    }
    if req.assignee != "" {
      where, args := WithText(where, args, AssigneeColumn, req.assignee);
    }
    if req.cursor > 0 {
      ghost var where0, args0 := where, args;
      args := args + [Number(req.cursor)];
      where := where + [Below(IdColumn, |args|)];
      Narrowed(where0, args0, Below(IdColumn, |args|), Number(req.cursor));
    }
    Unaffected(where, args, Number(req.limit));
    args := args + [Number(req.limit)];
    query := Select(where, Some(|args|));
    forall t: Table
      ensures Queried(t, query, args) == if req.limit < 0 then Err(NegativeLimit) else Ok(ListAnswer(t, req))
    {
      SelectAnswers(t, req, where, args);
    }
  }

  /** A condition on the primary key selects the one live row with that key, if there is one. */
  lemma KeySelects(t: Table, id: int)
    ensures var where, args := [Equals(IdColumn, 1)], [Number(id)];
            && (forall i :: 0 <= i < |where| ==> ConditionOk(where[i], args))
            && SelectedIds(t, where, args) == if IsLive(t, id) then {id} else {}
  {
    var where, args := [Equals(IdColumn, 1)], [Number(id)];
    forall x | x in t ensures Selected(where, args, t[x].task) <==> x == id {
      assert where[0] == Equals(IdColumn, 1);
    }
  }

  /** Without a condition every live row is selected. */
  lemma NothingNarrows(t: Table)
    ensures SelectedIds(t, [], []) == LiveIds(t)
  {
    var none: seq<Condition> := [];
    assert forall id :: id in t ==> Selected(none, [], t[id].task);
  }

  predicate SetsOk(sets: seq<Assignment>, args: seq<Arg>) {
    && (forall i :: 0 <= i < |sets| ==> AssignmentOk(sets[i], args))
    && (forall i, j :: 0 <= i < j < |sets| ==> sets[i].column != sets[j].column)
    && |args| == |sets| + 1 && args[0].Number?
  }

  /** Appends one assignment and its argument. */
  method WithSet(sets: seq<Assignment>, args: seq<Arg>, column: Column, text: string)
    returns (sets': seq<Assignment>, args': seq<Arg>)
    requires SetsOk(sets, args) && column != IdColumn
    requires forall i :: 0 <= i < |sets| ==> sets[i].column != column
    ensures SetsOk(sets', args') && args'[0] == args[0]
    ensures forall i :: 0 <= i < |sets'| ==>
                          sets'[i].column == column || exists j :: 0 <= j < |sets| && sets'[i].column == sets[j].column
    ensures forall task :: AssignedAll(task, sets', args') == Assigned(AssignedAll(task, sets, args), column, Text(text))
  {
    args' := args + [Text(text)];
    sets' := sets + [Assignment(column, |args'|)];
    forall i | 0 <= i < |sets'| ensures AssignmentOk(sets'[i], args') {
      if i < |sets| {
        assert AssignmentOk(sets[i], args);
      }
    }
    forall task ensures AssignedAll(task, sets', args') == Assigned(AssignedAll(task, sets, args), column, Text(text)) {
      AssignedMore(task, sets, args, Text(text));
      assert sets'[..|sets|] == sets;
    }
  }

  function AssignedIf(task: Task, column: Column, field: Option<string>): Task
    requires column != IdColumn
  {
    if field.Some? then Assigned(task, column, Text(field.value)) else task
  }

  /** Appends an assignment for a field that is supplied. */
  method WithField(sets: seq<Assignment>, args: seq<Arg>, column: Column, field: Option<string>, ghost used: set<Column>)
    returns (sets': seq<Assignment>, args': seq<Arg>)
    requires SetsOk(sets, args) && column != IdColumn && column !in used
    requires forall i :: 0 <= i < |sets| ==> sets[i].column in used
    ensures SetsOk(sets', args') && args'[0] == args[0]
    ensures forall i :: 0 <= i < |sets'| ==> sets'[i].column in used + {column}
    ensures forall task :: AssignedAll(task, sets', args') == AssignedIf(AssignedAll(task, sets, args), column, field)
  {
    sets', args' := sets, args;
    if field.Some? {
      sets', args' := WithSet(sets, args, column, field.value);
    }
  }

  /** Builds the update statement; over any table it patches the one live row of the request. */
  method BuildUpdate(req: UpdateTaskRequest) returns (update: Update, args: seq<Arg>)
    ensures forall t: Table, now: int :: Updated(t, update, args, now) ==
                                         if !IsLive(t, req.id) then Err(NotFound)
                                         else if !Fits(Patched(t[req.id].task, req)) then Err(TooLong)
                                         else Ok((After(t, Patch(req, now)), Patched(t[req.id].task, req)))
  {
    args := [Number(req.id)];
    var sets: seq<Assignment> := [];
    sets, args := WithField(sets, args, TitleColumn, req.title, {});
    sets, args := WithField(sets, args, DescriptionColumn, req.description, {TitleColumn});
    sets, args := WithField(sets, args, StatusColumn, req.status, {TitleColumn, DescriptionColumn});
    sets, args := WithField(sets, args, AssigneeColumn, req.assignee, {TitleColumn, DescriptionColumn, StatusColumn});
    update := Update(sets, 1);
    assert forall task :: AssignedAll(task, sets, args) == Patched(task, req);
  }

  /** The adapter and the database behind it. */
  class PostgresDb {
    var rows: Table
    var nextId: int

    ghost predicate Valid()
      reads this
    {
      State().Valid()
    }

    ghost function State(): Database.Db
      reads this
    {
      Database.Db(rows, nextId)
    }

    constructor ()
      ensures Valid() && State() == Database.EMPTY_DB
    {
      rows, nextId := map[], 1;
    }

    /** `INSERT ... RETURNING id`; a row that does not fit still uses up an id of the sequence.  `io` is the fate of
        the statement on the way to the database and back. */
    method Create(task: Task, now: int, io: Outcome) returns (r: Result<Task, DbError>)
      requires Valid()
      modifies this
      ensures Valid()
      ensures State() == if io.Effective() then Database.Served(old(State()), Database.Create(task), now).0 else old(State())
      ensures r == if !io.Acked? then Err(Unavailable)
                   else if Fits(task) then Ok(task.(id := old(nextId))) else Err(TooLong)
      // in terms of the columns
      ensures r == Err(TooLong) <==> io.Acked? && (RuneCount(task.title) > 200 || RuneCount(task.description) > 2000
                                                   || RuneCount(task.status) > 50 || RuneCount(task.assignee) > 100)
      ensures r.Ok? ==> rows == old(rows)[r.value.id := Row(r.value, now, now, None)] && old(nextId) !in old(rows)
      ensures !io.Lost? ==> nextId == old(nextId) + 1
    {
      if io.Lost? {
        return Err(Unavailable);
      }
      var id := nextId;
      nextId := nextId + 1;
      if Fits(task) {
        rows := rows[id := Row(task.(id := id), now, now, None)];
        r := Ok(task.(id := id));
      } else {
        r := Err(TooLong);
      }
      if io.Unacked? {
        r := Err(Unavailable);
      }
    }

    /** Runs the statement and scans its one row; no rows means not found. */
    method GetByID(id: int, up: bool) returns (r: Result<Task, DbError>)
      ensures r == if !up then Err(Unavailable) else if IsLive(rows, id) then Ok(rows[id].task) else Err(NotFound)
      ensures up ==> (r.Ok? <==> id in rows && rows[id].deletedAt.None?)
      ensures r.Ok? ==> r.value == rows[id].task && r.value.id == id
    {
      if !up {
        return Err(Unavailable);
      }
      var query, args := Select([Equals(IdColumn, 1)], None), [Number(id)];
      KeySelects(rows, id);
      var tasks := Queried(rows, query, args).value;
      r := if |tasks| == 0 then Err(NotFound) else Ok(tasks[0]);
    }

    /** Runs the built statement and scans its rows one by one. */
    method List(req: ListTasksRequest, up: bool) returns (r: Result<seq<Task>, DbError>)
      ensures r == if !up then Err(Unavailable) else if req.limit < 0 then Err(NegativeLimit) else Ok(ListAnswer(rows, req))
      // by the fields of the rows: what is listed
      ensures r.Ok? ==> forall task :: task in r.value ==>
                          && task.id in rows && rows[task.id].deletedAt.None? && rows[task.id].task == task
                          && (req.status != "" ==> task.status == req.status)
                          && (req.assignee != "" ==> task.assignee == req.assignee)
                          && (req.cursor > 0 ==> task.id < req.cursor)
      // what is left out, in which order, and how many
      ensures r.Ok? ==> forall id :: id in rows && rows[id].deletedAt.None?
                                     && (req.status != "" ==> rows[id].task.status == req.status)
                                     && (req.assignee != "" ==> rows[id].task.assignee == req.assignee)
                                     && (req.cursor > 0 ==> id < req.cursor) ==>
                                       || rows[id].task in r.value
                                       || (|r.value| == req.limit && forall task :: task in r.value ==> task.id > id)
      ensures r.Ok? ==> forall i, j :: 0 <= i < j < |r.value| ==> r.value[i].id > r.value[j].id
      ensures r.Ok? ==> |r.value| <= req.limit
    {
      hide ListAnswer, Queried;
      AnswerByFields(rows, req);
      var query, args := BuildSelect(req);
      if !up {
        return Err(Unavailable);
      }
      var result := Queried(rows, query, args);
      if result.Err? {
        return Err(result.error);
      }
      var tasks: seq<Task> := [];
      for i := 0 to |result.value|
        invariant tasks == result.value[..i]
      {
        tasks := tasks + [result.value[i]];
      }
      assert result.value[..|result.value|] == result.value;
      r := Ok(tasks);
    }

    method Update(req: UpdateTaskRequest, now: int, io: Outcome) returns (r: Result<Task, DbError>)
      requires Valid()
      modifies this
      ensures Valid()
      ensures State() == if io.Effective() then Database.Served(old(State()), Database.Update(req), now).0 else old(State())
      ensures r == if !io.Acked? then Err(Unavailable)
                   else if !IsLive(old(rows), req.id) then Err(NotFound)
                   else if !Fits(Patched(old(rows)[req.id].task, req)) then Err(TooLong)
                   else Ok(Patched(old(rows)[req.id].task, req))
      // field by field: what is supplied replaces, what is not stays, and no other row moves
      ensures r.Ok? ==> req.id in old(rows) && old(rows)[req.id].deletedAt.None? && r.value.id == req.id
      ensures r.Ok? && req.title.Some? ==> r.value.title == req.title.value
      ensures r.Ok? && req.title.None? ==> r.value.title == old(rows)[req.id].task.title
      ensures r.Ok? && req.description.Some? ==> r.value.description == req.description.value
      ensures r.Ok? && req.description.None? ==> r.value.description == old(rows)[req.id].task.description
      ensures r.Ok? && req.status.Some? ==> r.value.status == req.status.value
      ensures r.Ok? && req.status.None? ==> r.value.status == old(rows)[req.id].task.status
      ensures r.Ok? && req.assignee.Some? ==> r.value.assignee == req.assignee.value
      ensures r.Ok? && req.assignee.None? ==> r.value.assignee == old(rows)[req.id].task.assignee
      ensures r.Ok? ==> rows == old(rows)[req.id := old(rows)[req.id].(task := r.value, updatedAt := now)]
    {
      var update, args := BuildUpdate(req);
      if io.Lost? {
        return Err(Unavailable);
      }
      var result := Updated(rows, update, args, now);
      if result.Err? {
        return Err(if io.Acked? then result.error else Unavailable);
      }
      rows := result.value.0;
      r := if io.Acked? then Ok(result.value.1) else Err(Unavailable);
    }

    /** The error of a deletion, if it fails. */
    method Delete(id: int, now: int, io: Outcome) returns (r: Option<DbError>)
      requires Valid()
      modifies this
      ensures Valid()
      ensures State() == if io.Effective() then Database.Served(old(State()), Database.Delete(id), now).0 else old(State())
      ensures r == if !io.Acked? then Some(Unavailable) else if IsLive(old(rows), id) then None else Some(NotFound)
      ensures io.Acked? ==> (r.None? <==> id in old(rows) && old(rows)[id].deletedAt.None?)
      ensures r.None? ==> rows == old(rows)[id := old(rows)[id].(deletedAt := Some(now))]
    {
      if io.Lost? {
        return Some(Unavailable);
      }
      r := Some(NotFound);
      if id in rows && rows[id].deletedAt.None? {
        rows := rows[id := rows[id].(deletedAt := Some(now))];
        r := None;
      }
      if io.Unacked? {
        r := Some(Unavailable);
      }
    }

    method Count(up: bool) returns (r: Result<int, DbError>)
      ensures r == if up then Ok(LiveCount(rows)) else Err(Unavailable)
      ensures r.Ok? ==> r.value == |set id | id in rows && rows[id].deletedAt.None?|
    {
      CountByFields(rows);
      NothingNarrows(rows);
      r := if up then Ok(Counted(rows, [], [])) else Err(Unavailable);
    }
  }
}
