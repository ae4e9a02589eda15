/** The SQL the adapter builds: clauses that name columns and positional arguments, and what the database makes of
    them.  Nothing here knows about requests. */
module Statements {
  import opened Prelude
  import opened Tasks
  import opened TaskTable

  datatype Column = IdColumn | TitleColumn | DescriptionColumn | StatusColumn | AssigneeColumn

  datatype Arg = Text(text: string) | Number(number: int)

  /** `AND column = $n` and `AND column < $n`. */
  datatype Condition = Equals(column: Column, placeholder: nat) | Below(column: Column, placeholder: nat)

  /** `SELECT ... WHERE deleted_at IS NULL <where> ORDER BY id DESC LIMIT $limit`; without a limit every row comes. */
  datatype Select = Select(where: seq<Condition>, limit: Option<nat>)

  /** `, column = $n`. */
  datatype Assignment = Assignment(column: Column, placeholder: nat)

  /** `UPDATE tasks SET updated_at = now() <sets> WHERE id = $key AND deleted_at IS NULL RETURNING ...`. */
  datatype Update = Update(sets: seq<Assignment>, key: nat)

  datatype DbError = NotFound | TooLong | NegativeLimit | BadStatement | Unavailable

  function Field(task: Task, column: Column): Arg {
    match column
    case IdColumn => Number(task.id)
    case TitleColumn => Text(task.title)
    case DescriptionColumn => Text(task.description)
    case StatusColumn => Text(task.status)
    case AssigneeColumn => Text(task.assignee)
  }

  /** The argument a placeholder denotes is there and has the type of the column. */
  predicate Typed(column: Column, placeholder: nat, args: seq<Arg>) {
    1 <= placeholder <= |args| && (args[placeholder - 1].Number? <==> column == IdColumn)
  }

  // ----- SELECT -----

  /** A `<` is only built for the number column. */
  predicate ConditionOk(c: Condition, args: seq<Arg>) {
    Typed(c.column, c.placeholder, args) && (c.Below? ==> c.column == IdColumn)
  }

  predicate Holds(c: Condition, args: seq<Arg>, task: Task)
    requires ConditionOk(c, args)
  {
    match c
    case Equals(column, n) => Field(task, column) == args[n - 1]
    case Below(_, n) => task.id < args[n - 1].number
  }

  /** One argument a placeholder, and the limit is a number. */
  predicate SelectOk(q: Select, args: seq<Arg>) {
    && (forall i :: 0 <= i < |q.where| ==> ConditionOk(q.where[i], args))
    && |args| == |q.where| + (if q.limit.Some? then 1 else 0)
    && (q.limit.Some? ==> Typed(IdColumn, q.limit.value, args))
  }

  predicate Selected(where: seq<Condition>, args: seq<Arg>, task: Task)
    requires forall i :: 0 <= i < |where| ==> ConditionOk(where[i], args)
  {
    forall i :: 0 <= i < |where| ==> Holds(where[i], args, task)
  }

  function SelectedIds(t: Table, where: seq<Condition>, args: seq<Arg>): set<int>
    requires forall i :: 0 <= i < |where| ==> ConditionOk(where[i], args)
  {
    set id | id in t && t[id].Live() && Selected(where, args, t[id].task)
  }

  /** The rows a query yields, or the error it fails with. */
  function Queried(t: Table, q: Select, args: seq<Arg>): Result<seq<Task>, DbError> {
    if !SelectOk(q, args) then Err(BadStatement)
    else if q.limit.None? then Ok(Listed(t, SelectedIds(t, q.where, args), None))
    else if args[q.limit.value - 1].number < 0 then Err(NegativeLimit)
    else Ok(Listed(t, SelectedIds(t, q.where, args), Some(args[q.limit.value - 1].number)))
  }

  /** The rows with the given ids from the top, all of them or the first `n`. */
  function Listed(t: Table, ids: set<int>, n: Option<int>): seq<Task>
    requires ids <= t.Keys
  {
    var all := Descending(ids);
    assert forall x :: x in all ==> x in t;
    TasksOf(t, if n.Some? then Take(all, n.value) else all)
  }

  /** `SELECT count(id) FROM tasks WHERE deleted_at IS NULL <where>`. */
  function Counted(t: Table, where: seq<Condition>, args: seq<Arg>): int
    requires forall i :: 0 <= i < |where| ==> ConditionOk(where[i], args)
  {
    |SelectedIds(t, where, args)|
  }

  /** A further condition on a fresh last argument narrows the selection and disturbs no earlier placeholder. */
  lemma Narrowed(where: seq<Condition>, args: seq<Arg>, c: Condition, arg: Arg)
    requires forall i :: 0 <= i < |where| ==> ConditionOk(where[i], args)
    requires ConditionOk(c, args + [arg]) && c.placeholder == |args| + 1
    ensures forall i :: 0 <= i < |where + [c]| ==> ConditionOk((where + [c])[i], args + [arg])
    ensures forall task :: Selected(where + [c], args + [arg], task) <==>
                           Selected(where, args, task) && Holds(c, args + [arg], task)
  {
    forall i | 0 <= i < |where + [c]| ensures ConditionOk((where + [c])[i], args + [arg]) {
      if i < |where| {
        assert (where + [c])[i] == where[i] && ConditionOk(where[i], args);
      }
    }
    forall task ensures Selected(where + [c], args + [arg], task) <==>
                        Selected(where, args, task) && Holds(c, args + [arg], task)
    {
      forall i | 0 <= i < |where|
        ensures Holds((where + [c])[i], args + [arg], task) == Holds(where[i], args, task)
      {
        assert (where + [c])[i] == where[i] && ConditionOk(where[i], args);
      }
      assert (where + [c])[|where|] == c;
    }
  }

  /** Arguments added at the end leave a selection alone. */
  lemma Unaffected(where: seq<Condition>, args: seq<Arg>, arg: Arg)
    requires forall i :: 0 <= i < |where| ==> ConditionOk(where[i], args)
    ensures forall i :: 0 <= i < |where| ==> ConditionOk(where[i], args + [arg])
    ensures forall task :: Selected(where, args + [arg], task) <==> Selected(where, args, task)
  {
    forall i | 0 <= i < |where| ensures ConditionOk(where[i], args + [arg]) {
      assert ConditionOk(where[i], args);
    }
    forall task ensures Selected(where, args + [arg], task) <==> Selected(where, args, task) {
      forall i | 0 <= i < |where| ensures Holds(where[i], args + [arg], task) == Holds(where[i], args, task) {
        assert ConditionOk(where[i], args);
      }
    }
  }

  // ----- UPDATE -----

  function Assigned(task: Task, column: Column, arg: Arg): Task
    requires arg.Text? && column != IdColumn
  {
    match column
    case TitleColumn => task.(title := arg.text)
    case DescriptionColumn => task.(description := arg.text)
    case StatusColumn => task.(status := arg.text)
    case AssigneeColumn => task.(assignee := arg.text)
  }

  /** An assignment writes its column and no other. */
  lemma AssignedField(task: Task, column: Column, arg: Arg)
    requires arg.Text? && column != IdColumn
    ensures Field(Assigned(task, column, arg), column) == arg
    ensures forall other :: other != column ==> Field(Assigned(task, column, arg), other) == Field(task, other)
  {
  }

  /** Which field of a row each column is. */
  lemma ColumnFields(id: int, title: string, description: string, status: string, assignee: string)
    ensures var task := Task.Task(id, title, description, status, assignee);
            && Field(task, IdColumn) == Number(id) && Field(task, TitleColumn) == Text(title)
            && Field(task, DescriptionColumn) == Text(description) && Field(task, StatusColumn) == Text(status)
            && Field(task, AssigneeColumn) == Text(assignee)
  {
  }

  predicate AssignmentOk(a: Assignment, args: seq<Arg>) {
    a.column != IdColumn && Typed(a.column, a.placeholder, args)
  }

  /** Each column is set at most once, and no argument is left over. */
  predicate UpdateOk(u: Update, args: seq<Arg>) {
    && (forall i :: 0 <= i < |u.sets| ==> AssignmentOk(u.sets[i], args))
    && (forall i, j :: 0 <= i < j < |u.sets| ==> u.sets[i].column != u.sets[j].column)
    && Typed(IdColumn, u.key, args) && |args| == |u.sets| + 1
  }

  function AssignedAll(task: Task, sets: seq<Assignment>, args: seq<Arg>): (r: Task)
    requires forall i :: 0 <= i < |sets| ==> AssignmentOk(sets[i], args)
    ensures r.id == task.id
  {
    if sets == [] then task
    else
      var last := sets[|sets| - 1];
      assert AssignmentOk(last, args);
      var rest := AssignedAll(task, sets[..|sets| - 1], args);
      Assigned(rest, last.column, args[last.placeholder - 1])
  }

  /** The table after the statement and the row it returns, or the error it fails with. */
  function Updated(t: Table, u: Update, args: seq<Arg>, now: int): Result<(Table, Task), DbError> {
    if !UpdateOk(u, args) then Err(BadStatement)
    else
      var id := args[u.key - 1].number;
      if !IsLive(t, id) then Err(NotFound)
      else
        var task := AssignedAll(t[id].task, u.sets, args);
        if !Fits(task) then Err(TooLong)
        else Ok((t[id := t[id].(task := task, updatedAt := now)], task))
  }

  /** A further assignment from a fresh last argument comes after the earlier ones and disturbs none of them. */
  lemma {:induction false} AssignedMore(task: Task, sets: seq<Assignment>, args: seq<Arg>, arg: Arg)
    requires forall i :: 0 <= i < |sets| ==> AssignmentOk(sets[i], args)
    ensures forall i :: 0 <= i < |sets| ==> AssignmentOk(sets[i], args + [arg])
    ensures AssignedAll(task, sets, args + [arg]) == AssignedAll(task, sets, args)
  {
    forall i | 0 <= i < |sets| ensures AssignmentOk(sets[i], args + [arg]) {
      assert AssignmentOk(sets[i], args);
    }
    if sets != [] {
      var init := sets[..|sets| - 1];
      forall i | 0 <= i < |init| ensures AssignmentOk(init[i], args) {
        assert init[i] == sets[i];
      }
      AssignedMore(task, init, args, arg);
    }
  }
}
