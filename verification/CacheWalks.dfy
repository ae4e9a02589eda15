/** Following the cursor through the cache while other clients read and write: the pages are those of a walk over
    versions of the table, none older than the writes retired before the walk began. */
module CacheWalks {
  import opened Tasks
  import opened TaskTable
  import opened CacheProtocol
  import opened ListFreshness
  import opened CacheTheorems
  import opened TaskService
  import opened Paging

  /** The request by which the service learns whether there is another page. */
  function Probe(req: ListTasksRequest): ListTasksRequest {
    req.WithClampedLimit().(limit := req.WithClampedLimit().limit + 1)
  }

  function CallSteps(c: Client, req: ListTasksRequest, during: seq<Step>): seq<Step> {
    [Listing(c, ListBegin(Probe(req)))] + during
  }

  /** After `before`, client `c` asks for a page, and it has its answer after the steps `during` of everyone. */
  ghost predicate Called(s0: State, before: seq<Step>, c: Client, req: ListTasksRequest, during: seq<Step>) {
    && Feasible(s0, before + CallSteps(c, req, during))
    && (forall i :: 0 <= i < |during| ==> !Begins(during[i], c))
    && Run(s0, before + CallSteps(c, req, during)).At(c).ListDone?
  }

  ghost function PageSeen(s0: State, before: seq<Step>, c: Client, req: ListTasksRequest, during: seq<Step>): Page
    requires Called(s0, before, c, req, during)
  {
    Trimmed(Run(s0, before + CallSteps(c, req, during)).At(c).page, req.WithClampedLimit().limit)
  }

  function Onward(req: ListTasksRequest, page: Page): ListTasksRequest {
    req.(cursor := page.nextCursor)
  }

  /** Client `c` follows the cursor from `req` to the last page, with one call for each of `durings`. */
  ghost predicate Walks(s0: State, before: seq<Step>, c: Client, req: ListTasksRequest, durings: seq<seq<Step>>)
    decreases |durings|
  {
    && durings != [] && Called(s0, before, c, req, durings[0])
    && var page := PageSeen(s0, before, c, req, durings[0]);
       if page.hasMore then Walks(s0, before + CallSteps(c, req, durings[0]), c, Onward(req, page), durings[1..])
       else |durings| == 1
  }

  ghost function Seen(s0: State, before: seq<Step>, c: Client, req: ListTasksRequest, durings: seq<seq<Step>>): seq<Page>
    requires Walks(s0, before, c, req, durings)
    decreases |durings|
  {
    var page := PageSeen(s0, before, c, req, durings[0]);
    if page.hasMore then
      [page] + Seen(s0, before + CallSteps(c, req, durings[0]), c, Onward(req, page), durings[1..])
    else [page]
  }

  /** Everything that happened up to the end of the walk. */
  ghost function WholeRun(s0: State, before: seq<Step>, c: Client, req: ListTasksRequest, durings: seq<seq<Step>>)
    : (run: seq<Step>)
    requires Walks(s0, before, c, req, durings)
    ensures Feasible(s0, run)
    decreases |durings|
  {
    var page, run := PageSeen(s0, before, c, req, durings[0]), before + CallSteps(c, req, durings[0]);
    if page.hasMore then WholeRun(s0, run, c, Onward(req, page), durings[1..]) else run
  }

  lemma {:induction false} WholeRunGrows(s0: State, before: seq<Step>, c: Client, req: ListTasksRequest,
                                         durings: seq<seq<Step>>)
    requires Walks(s0, before, c, req, durings)
    ensures Feasible(s0, before) && Grows(Run(s0, before), Run(s0, WholeRun(s0, before, c, req, durings)))
    decreases |durings|
  {
    var page, run := PageSeen(s0, before, c, req, durings[0]), before + CallSteps(c, req, durings[0]);
    Extended(s0, before, CallSteps(c, req, durings[0]));
    if page.hasMore {
      WholeRunGrows(s0, run, c, Onward(req, page), durings[1..]);
    }
  }

  // ----- one page -----

  /** Version `v` of the database, known at the end `s`, is no older than the writes `settled`. */
  ghost predicate Recent(s: State, settled: set<nat>, v: nat) {
    v < |s.db| && UpTo(settled, v)
  }

  lemma PageIsDated(s0: State, before: seq<Step>, c: Client, req: ListTasksRequest, during: seq<Step>)
    requires Initial(s0) && Called(s0, before, c, req, during)
    ensures Feasible(s0, before)
    ensures var s := Run(s0, before + CallSteps(c, req, during));
            exists v: nat :: Recent(s, Run(s0, before).h.retired, v)
                             && PageSeen(s0, before, c, req, during) == PageOf(s.db[v], req)
  {
    ListIsFresh(s0, before, c, Probe(req), during);
    var s := Run(s0, before + CallSteps(c, req, during));
    var v: nat :| v <= s.Version() < |s.db| && s.At(c).page == ListAnswer(s.db[v], Probe(req))
                  && UpTo(Run(s0, before).h.retired, v);
    ProbedPage(s.db[v], req, PageSeen(s0, before, c, req, during));
    assert Recent(s, Run(s0, before).h.retired, v);
  }

  // ----- the walk -----

  /** The tables at the given versions. */
  ghost function TablesAt(db: seq<Table>, versions: seq<nat>): nat -> Table {
    (i: nat) => if i < |versions| && versions[i] < |db| then db[versions[i]] else map[]
  }

  ghost predicate OneLater(tables: nat -> Table, tables': nat -> Table) {
    forall m: nat :: tables(m + 1) == tables'(m)
  }

  lemma {:induction false} WalkShift(tables: nat -> Table, tables': nat -> Table, i: nat, req: ListTasksRequest)
    requires OneLater(tables, tables')
    ensures Walk(tables, i + 1, req) == Walk(tables', i, req)
    decreases req.cursor <= 0, req.cursor
  {
    hide PageOf;
    assert tables(i + 1) == tables'(i);
    var page := PageOf(tables'(i), req);
    if page.hasMore {
      CursorDescends(tables'(i), req);
      WalkShift(tables, tables', i + 1, Onward(req, page));
    }
  }

  lemma TablesShift(db: seq<Table>, v: nat, rest: seq<nat>)
    ensures OneLater(TablesAt(db, [v] + rest), TablesAt(db, rest))
  {
    forall m: nat ensures TablesAt(db, [v] + rest)(m + 1) == TablesAt(db, rest)(m) {
      assert m < |rest| ==> ([v] + rest)[m + 1] == rest[m];
    }
  }

  lemma WalkFrom(db: seq<Table>, v: nat, rest: seq<nat>, req: ListTasksRequest)
    requires v < |db|
    ensures var page := PageOf(db[v], req);
            Walk(TablesAt(db, [v] + rest), 0, req) ==
            if page.hasMore then [page] + Walk(TablesAt(db, rest), 0, Onward(req, page)) else [page]
  {
    hide PageOf, OneLater;
    var page, tables := PageOf(db[v], req), TablesAt(db, [v] + rest);
    assert tables(0) == db[v];
    if page.hasMore {
      TablesShift(db, v, rest);
      WalkShift(tables, TablesAt(db, rest), 0, Onward(req, page));
    }
  }

  /** The pages are those of a walk over recent versions. */
  ghost predicate Dated(s: State, settled: set<nat>, req: ListTasksRequest, pages: seq<Page>, versions: seq<nat>) {
    && |versions| == |pages| && (forall i :: 0 <= i < |versions| ==> Recent(s, settled, versions[i]))
    && pages == Walk(TablesAt(s.db, versions), 0, req)
  }

  lemma DatedMore(s: State, settled: set<nat>, later: set<nat>, req: ListTasksRequest, v: nat, pages: seq<Page>,
                  rest: seq<nat>)
    requires Recent(s, settled, v) && settled <= later && PageOf(s.db[v], req).hasMore
    requires Dated(s, later, Onward(req, PageOf(s.db[v], req)), pages, rest)
    ensures Dated(s, settled, req, [PageOf(s.db[v], req)] + pages, [v] + rest)
  {
    hide PageOf;
    WalkFrom(s.db, v, rest, req);
    forall i | 0 <= i < |[v] + rest| ensures Recent(s, settled, ([v] + rest)[i]) {
      if i > 0 {
        assert Recent(s, later, rest[i - 1]);
      }
    }
  }

  lemma DatedLast(s: State, settled: set<nat>, req: ListTasksRequest, v: nat)
    requires Recent(s, settled, v) && !PageOf(s.db[v], req).hasMore
    ensures Dated(s, settled, req, [PageOf(s.db[v], req)], [v])
  {
    hide PageOf;
    WalkFrom(s.db, v, [], req);
    assert [v] + [] == [v];
  }

  /** The pages a client sees along the cursor are those of a walk over versions of the table, each no older than the
      writes that had committed and replaced the token before the walk began. */
  lemma {:induction false} WalkIsFresh(s0: State, before: seq<Step>, c: Client, req: ListTasksRequest,
                                       durings: seq<seq<Step>>)
    requires Initial(s0) && Walks(s0, before, c, req, durings)
    ensures Feasible(s0, before)
    ensures exists versions :: Dated(Run(s0, WholeRun(s0, before, c, req, durings)), Run(s0, before).h.retired, req,
                                     Seen(s0, before, c, req, durings), versions)
    decreases |durings|
  {
    hide PageOf, Dated, Feasible, Run, Trimmed, Initial;
    var page, run := PageSeen(s0, before, c, req, durings[0]), before + CallSteps(c, req, durings[0]);
    Extended(s0, before, CallSteps(c, req, durings[0]));
    var s, settled := Run(s0, WholeRun(s0, before, c, req, durings)), Run(s0, before).h.retired;
    PageIsDated(s0, before, c, req, durings[0]);
    var v: nat :| Recent(Run(s0, run), settled, v) && page == PageOf(Run(s0, run).db[v], req);
    if page.hasMore {
      WholeRunGrows(s0, run, c, Onward(req, page), durings[1..]);
      assert Recent(s, settled, v) && s.db[v] == Run(s0, run).db[v];
      WalkIsFresh(s0, run, c, Onward(req, page), durings[1..]);
      var pages := Seen(s0, run, c, Onward(req, page), durings[1..]);
      var rest :| Dated(s, Run(s0, run).h.retired, Onward(req, page), pages, rest);
      DatedMore(s, settled, Run(s0, run).h.retired, req, v, pages, rest);
      assert Seen(s0, before, c, req, durings) == [page] + pages;
    } else {
      DatedLast(s, settled, req, v);
      assert Seen(s0, before, c, req, durings) == [page];
    }
  }

  /** Paging through the cache, with everyone else at work: nothing comes twice. */
  lemma SeenDescends(s0: State, before: seq<Step>, c: Client, req: ListTasksRequest, durings: seq<seq<Step>>)
    requires Initial(s0) && Walks(s0, before, c, req, durings)
    ensures TasksDescend(Collected(Seen(s0, before, c, req, durings)))
  {
    hide PageOf, Walk, Seen, WholeRun, Feasible, Run, Initial;
    WalkIsFresh(s0, before, c, req, durings);
    var s := Run(s0, WholeRun(s0, before, c, req, durings));
    var versions :| Dated(s, Run(s0, before).h.retired, req, Seen(s0, before, c, req, durings), versions);
    WalkDescends(TablesAt(s.db, versions), 0, req);
  }

  /** A task that is live and matches at every version since the last write retired before the walk is seen. */
  lemma SeenComplete(s0: State, before: seq<Step>, c: Client, req: ListTasksRequest, durings: seq<seq<Step>>, id: int)
    requires Initial(s0) && Walks(s0, before, c, req, durings) && Feasible(s0, before)
    requires var s := Run(s0, WholeRun(s0, before, c, req, durings));
             forall v: nat :: Recent(s, Run(s0, before).h.retired, v) ==> id in MatchingIds(s.db[v], req)
    ensures exists task :: task in Collected(Seen(s0, before, c, req, durings)) && task.id == id
  {
    hide PageOf, Walk, Seen, WholeRun, Feasible, Run, Initial;
    WalkIsFresh(s0, before, c, req, durings);
    var s, settled := Run(s0, WholeRun(s0, before, c, req, durings)), Run(s0, before).h.retired;
    var versions :| Dated(s, settled, req, Seen(s0, before, c, req, durings), versions);
    forall j | 0 <= j < |versions| ensures id in MatchingIds(TablesAt(s.db, versions)(j), req) {
      assert Recent(s, settled, versions[j]);
    }
    WalkComplete(TablesAt(s.db, versions), 0, req, id);
  }

  /** Every task seen was a live matching row at a version no older than those writes. */
  lemma SeenSound(s0: State, before: seq<Step>, c: Client, req: ListTasksRequest, durings: seq<seq<Step>>, task: Task)
    requires Initial(s0) && Walks(s0, before, c, req, durings) && task in Collected(Seen(s0, before, c, req, durings))
    ensures Feasible(s0, before)
    ensures var s := Run(s0, WholeRun(s0, before, c, req, durings));
            exists v: nat :: Recent(s, Run(s0, before).h.retired, v)
                             && task.id in MatchingIds(s.db[v], req) && s.db[v][task.id].task == task
  {
    hide PageOf, Walk, Seen, WholeRun, Feasible, Run, Initial;
    WalkIsFresh(s0, before, c, req, durings);
    var s, settled := Run(s0, WholeRun(s0, before, c, req, durings)), Run(s0, before).h.retired;
    var versions :| Dated(s, settled, req, Seen(s0, before, c, req, durings), versions);
    var tables := TablesAt(s.db, versions);
    WalkSound(tables, 0, req, task);
    var j: nat :| j < |Walk(tables, 0, req)| && task.id in MatchingIds(tables(j), req)
                  && tables(j)[task.id].task == task;
    assert Recent(s, settled, versions[j]);
  }
}
