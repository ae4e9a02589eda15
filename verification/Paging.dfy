/** Following `next_cursor` from page to page while the table changes. */
module Paging {
  import opened Tasks
  import opened TaskTable
  import opened TaskService

  /** The tasks of all pages in the order received. */
  function Collected(pages: seq<Page>): seq<Task> {
    if pages == [] then [] else pages[0].tasks + Collected(pages[1..])
  }

  ghost predicate Shows(page: Page, id: int) {
    exists i :: 0 <= i < |page.tasks| && page.tasks[i].id == id
  }

  ghost predicate TasksDescend(tasks: seq<Task>) {
    forall i, j :: 0 <= i < j < |tasks| ==> tasks[i].id > tasks[j].id
  }

  lemma RowsSound(t: Table, all: seq<int>, ids: set<int>, tasks: seq<Task>, n: nat)
    requires FirstRows(t, all, tasks, n) && StrictlyDescending(all) && forall x :: x in all <==> x in ids
    ensures TasksDescend(tasks)
    ensures forall i :: 0 <= i < |tasks| ==> tasks[i].id in ids && tasks[i].id in t && tasks[i] == t[tasks[i].id].task
  {
    assert forall i :: 0 <= i < |all| ==> all[i] in all;
  }

  /** Every row of a page is a live matching row of its table, and ids descend. */
  lemma PageSound(t: Table, req: ListTasksRequest)
    ensures TasksDescend(PageOf(t, req).tasks)
    ensures var tasks := PageOf(t, req).tasks;
            forall i :: 0 <= i < |tasks| ==> tasks[i].id in MatchingIds(t, req) && tasks[i] == t[tasks[i].id].task
  {
    var n := req.WithClampedLimit().limit;
    AnswerShape(t, req, n);
    RowsSound(t, Matching(t, req), MatchingIds(t, req), PageOf(t, req).tasks, n);
  }

  /** The cursor of a page is the id of its last row when there are more rows, and zero otherwise. */
  lemma PageCursor(t: Table, req: ListTasksRequest)
    ensures var page := PageOf(t, req);
            if page.hasMore then page.tasks != [] && page.nextCursor == page.tasks[|page.tasks| - 1].id
            else page.nextCursor == 0
  {
    AnswerShape(t, req, req.WithClampedLimit().limit);
  }

  lemma MemberAt(s: seq<int>, x: int) returns (i: nat)
    requires x in s
    ensures i < |s| && s[i] == x
  {
    i :| i < |s| && s[i] == x;
  }

  /** No matching row at or above the cursor is left off the page. */
  lemma PageComplete(t: Table, req: ListTasksRequest, id: int)
    requires id in MatchingIds(t, req) && (PageOf(t, req).hasMore ==> id >= PageOf(t, req).nextCursor)
    ensures Shows(PageOf(t, req), id)
  {
    var all, page := Matching(t, req), PageOf(t, req);
    AnswerShape(t, req, req.WithClampedLimit().limit);
    var i := MemberAt(all, id);
    assert i < |page.tasks| && page.tasks[i].id == id;
  }

  /** Among listed ids, some lie below the first `n` exactly when there are more than `n`. */
  lemma MoreBelow(all: seq<int>, n: nat, last: int)
    requires StrictlyDescending(all) && 1 <= n <= |all| && last == all[n - 1]
    ensures |all| > n <==> exists id :: id in all && id < last
  {
    if |all| > n {
      assert all[n] in all;
    } else if id :| id in all && id < last {
      var i := MemberAt(all, id);
      assert false;
    }
  }

  /** `has_more` holds exactly when a matching row lies below the last one returned. */
  lemma HasMoreMeaning(t: Table, req: ListTasksRequest)
    ensures var page := PageOf(t, req);
            page.hasMore <==> page.tasks != [] && exists id :: id in Matching(t, req) && id < page.tasks[|page.tasks| - 1].id
  {
    var all, n := Matching(t, req), req.WithClampedLimit().limit;
    AnswerShape(t, req, n);
    HasMoreOfRows(t, all, PageOf(t, req).tasks, n);
  }

  lemma HasMoreOfRows(t: Table, all: seq<int>, tasks: seq<Task>, n: nat)
    requires FirstRows(t, all, tasks, n) && n >= 1 && StrictlyDescending(all)
    ensures |all| > n <==> tasks != [] && exists id :: id in all && id < tasks[|tasks| - 1].id
  {
    if tasks != [] {
      MoreBelow(all, |tasks|, tasks[|tasks| - 1].id);
    }
  }

  // ----- walks -----

  /** The cursor is positive and below the one before. */
  lemma CursorDescends(t: Table, req: ListTasksRequest)
    requires PageOf(t, req).hasMore
    ensures var next := PageOf(t, req).nextCursor; next >= 1 && (req.cursor > 0 ==> next < req.cursor)
  {
    PageSound(t, req);
    PageCursor(t, req);
  }

  /** The walk: `tables(i)` is what the table holds when page `i` is asked for.  It ends because the cursor is positive
      and strictly decreases. */
  function Walk(tables: nat -> Table, i: nat, req: ListTasksRequest): (pages: seq<Page>)
    ensures pages != []
    decreases req.cursor <= 0, req.cursor
  {
    var page := PageOf(tables(i), req);
    if page.hasMore then
      CursorDescends(tables(i), req);
      [page] + Walk(tables, i + 1, req.(cursor := page.nextCursor))
    else [page]
  }

  ghost predicate AllBelow(tasks: seq<Task>, bound: int) {
    forall k :: 0 <= k < |tasks| ==> tasks[k].id < bound
  }

  lemma DescendingJoin(upper: seq<Task>, lower: seq<Task>)
    requires TasksDescend(upper) && TasksDescend(lower) && upper != [] && AllBelow(lower, upper[|upper| - 1].id)
    ensures TasksDescend(upper + lower)
    ensures forall bound :: AllBelow(upper, bound) ==> AllBelow(upper + lower, bound)
  {
  }

  lemma CollectedStep(page: Page, pages: seq<Page>)
    ensures Collected([page] + pages) == page.tasks + Collected(pages)
  {
    assert ([page] + pages)[1..] == pages;
  }

  lemma PageBelow(t: Table, req: ListTasksRequest)
    requires req.cursor > 0
    ensures AllBelow(PageOf(t, req).tasks, req.cursor)
  {
    PageSound(t, req);
  }

  lemma PagesJoin(page: Page, rest: seq<Page>)
    requires TasksDescend(page.tasks) && TasksDescend(Collected(rest)) && page.tasks != []
    requires AllBelow(Collected(rest), page.tasks[|page.tasks| - 1].id)
    ensures TasksDescend(Collected([page] + rest))
    ensures forall bound :: AllBelow(page.tasks, bound) ==> AllBelow(Collected([page] + rest), bound)
  {
    CollectedStep(page, rest);
    DescendingJoin(page.tasks, Collected(rest));
  }

  lemma LonePage(page: Page)
    ensures Collected([page]) == page.tasks
  {
    CollectedStep(page, []);
    assert [page] + [] == [page];
  }

  /** Everything a walk returns lies below its cursor, and its ids strictly decrease throughout: nothing comes twice. */
  lemma {:induction false} WalkDescends(tables: nat -> Table, i: nat, req: ListTasksRequest)
    ensures TasksDescend(Collected(Walk(tables, i, req)))
    ensures req.cursor > 0 ==> AllBelow(Collected(Walk(tables, i, req)), req.cursor)
    decreases req.cursor <= 0, req.cursor
  {
    var t := tables(i);
    var page := PageOf(t, req);
    PageSound(t, req);
    if req.cursor > 0 {
      PageBelow(t, req);
    }
    if page.hasMore {
      PageCursor(t, req);
      CursorDescends(t, req);
      WalkDescends(tables, i + 1, req.(cursor := page.nextCursor));
      PagesJoin(page, Walk(tables, i + 1, req.(cursor := page.nextCursor)));
    } else {
      LonePage(page);
    }
  }

  /** A row that is live and matches each time a page is asked for is returned. */
  lemma {:induction false} WalkComplete(tables: nat -> Table, i: nat, req: ListTasksRequest, id: int)
    requires forall j :: i <= j < i + |Walk(tables, i, req)| ==> id in MatchingIds(tables(j), req)
    ensures exists task :: task in Collected(Walk(tables, i, req)) && task.id == id
    decreases req.cursor <= 0, req.cursor
  {
    var page, pages := PageOf(tables(i), req), Walk(tables, i, req);
    assert id in MatchingIds(tables(i), req);
    if page.hasMore && id < page.nextCursor {
      CursorDescends(tables(i), req);
      var next := req.(cursor := page.nextCursor);
      assert pages[1..] == Walk(tables, i + 1, next);
      forall j | i + 1 <= j < i + 1 + |Walk(tables, i + 1, next)| ensures id in MatchingIds(tables(j), next) {
        assert id in MatchingIds(tables(j), req);
      }
      WalkComplete(tables, i + 1, next, id);
    } else {
      PageComplete(tables(i), req, id);
      var k :| 0 <= k < |page.tasks| && page.tasks[k].id == id;
      assert page.tasks[k] in Collected(pages);
    }
  }

  /** Every task returned was a live matching row of the table its page was read from. */
  lemma {:induction false} WalkSound(tables: nat -> Table, i: nat, req: ListTasksRequest, task: Task)
    requires task in Collected(Walk(tables, i, req))
    ensures exists j :: i <= j < i + |Walk(tables, i, req)|
                        && task.id in MatchingIds(tables(j), req) && tables(j)[task.id].task == task
    decreases req.cursor <= 0, req.cursor
  {
    var page, pages := PageOf(tables(i), req), Walk(tables, i, req);
    PageSound(tables(i), req);
    if task !in page.tasks {
      assert page.hasMore && pages[1..] == Walk(tables, i + 1, req.(cursor := page.nextCursor));
      CursorDescends(tables(i), req);
      var next := req.(cursor := page.nextCursor);
      WalkSound(tables, i + 1, next, task);
      var j :| i + 1 <= j < i + 1 + |Walk(tables, i + 1, next)|
               && task.id in MatchingIds(tables(j), next) && tables(j)[task.id].task == task;
      assert task.id in MatchingIds(tables(j), req);
    }
  }

  function IdsOf(tasks: seq<Task>): seq<int> {
    seq(|tasks|, k requires 0 <= k < |tasks| => tasks[k].id)
  }

  lemma StaticWalkIds(t: Table, req: ListTasksRequest, i: nat)
    ensures IdsOf(Collected(Walk(_ => t, i, req))) == Matching(t, req)
  {
    var tasks := Collected(Walk(_ => t, i, req));
    WalkDescends(_ => t, i, req);
    forall id ensures id in IdsOf(tasks) <==> id in MatchingIds(t, req) {
      StaticWalkMember(t, req, i, id);
    }
    DescendingUnique(IdsOf(tasks), MatchingIds(t, req));
  }

  lemma IdMember(tasks: seq<Task>, id: int)
    ensures id in IdsOf(tasks) <==> exists task :: task in tasks && task.id == id
  {
    if id in IdsOf(tasks) {
      var k :| 0 <= k < |tasks| && IdsOf(tasks)[k] == id;
      assert tasks[k] in tasks;
    }
    if task :| task in tasks && task.id == id {
      var k :| 0 <= k < |tasks| && tasks[k] == task;
      assert IdsOf(tasks)[k] == id;
    }
  }

  lemma StaticWalkMember(t: Table, req: ListTasksRequest, i: nat, id: int)
    ensures id in IdsOf(Collected(Walk(_ => t, i, req))) <==> id in MatchingIds(t, req)
  {
    var tasks := Collected(Walk(_ => t, i, req));
    IdMember(tasks, id);
    if id in MatchingIds(t, req) {
      WalkComplete(_ => t, i, req, id);
    }
    if task :| task in tasks && task.id == id {
      WalkSound(_ => t, i, req, task);
    }
  }

  /** Over a table that does not change the pages add up to the whole answer, in order. */
  lemma StaticWalk(t: Table, req: ListTasksRequest)
    ensures Collected(Walk(_ => t, 0, req)) == ListAnswer(t, req.(limit := |MatchingIds(t, req)|))
  {
    var whole := ListAnswer(t, req.(limit := |MatchingIds(t, req)|));
    var tasks := Collected(Walk(_ => t, 0, req));
    StaticWalkIds(t, req, 0);
    AnswerShape(t, req, |MatchingIds(t, req)|);
    assert |IdsOf(tasks)| == |tasks|;
    forall k | 0 <= k < |tasks| ensures tasks[k] == whole[k] {
      assert IdsOf(tasks)[k] == Matching(t, req)[k];
      WalkSound(_ => t, 0, req, tasks[k]);
    }
  }
}
