/** The clean-up of the load test: page through one assignee's tasks, deleting each page as it goes. */
module Teardown {
  import opened Tasks
  import opened TaskTable
  import opened Redis
  import opened CachedTasks
  import opened TaskService
  import Database
  import opened Paging

  const PAGE_SIZE := 50

  function AskFor(assignee: string, cursor: int): ListTasksRequest {
    ListTasksRequest("", assignee, cursor, PAGE_SIZE)
  }

  /** `t` is `before` with the rows of `gone` soft-deleted and every other row untouched. */
  ghost predicate Wiped(before: Table, t: Table, gone: set<int>) {
    && t.Keys == before.Keys && gone <= before.Keys
    && forall id :: id in before ==>
                      if id in gone then t[id].task == before[id].task && !t[id].Live() else t[id] == before[id]
  }

  lemma WipedMore(before: Table, t: Table, gone: set<int>, id: int, at: int)
    requires Wiped(before, t, gone) && IsLive(t, id)
    ensures Wiped(before, After(t, Remove(id, at)), gone + {id})
  {
  }

  /** What is left to delete once some rows are gone. */
  lemma LeftToDelete(before: Table, t: Table, gone: set<int>, assignee: string)
    requires Wiped(before, t, gone)
    ensures MatchingIds(t, AskFor(assignee, 0)) == MatchingIds(before, AskFor(assignee, 0)) - gone
  {
    forall id ensures id in MatchingIds(t, AskFor(assignee, 0)) <==>
                      id in MatchingIds(before, AskFor(assignee, 0)) && id !in gone
    {
    }
  }

  lemma CursorNarrows(t: Table, assignee: string, cursor: int)
    requires cursor > 0 ==> forall id :: id in MatchingIds(t, AskFor(assignee, 0)) ==> id < cursor
    ensures MatchingIds(t, AskFor(assignee, cursor)) == MatchingIds(t, AskFor(assignee, 0))
  {
    forall id ensures id in MatchingIds(t, AskFor(assignee, cursor)) <==> id in MatchingIds(t, AskFor(assignee, 0)) {
    }
  }

  /** What the clean-up asks for, in terms of the fields of the rows. */
  lemma AskedByFields(t: Table, assignee: string)
    ensures forall id :: id in MatchingIds(t, AskFor(assignee, 0)) <==>
                           id in t && t[id].deletedAt.None? && (assignee == "" || t[id].task.assignee == assignee)
  {
  }

  ghost function IdSet(tasks: seq<Task>): set<int> {
    set task | task in tasks :: task.id
  }

  /** Every call succeeds, and a cache keeps in agreement through each deletion, starting with `lease` on its lock. */
  ghost predicate Reliable(repo: Repository, nets: nat -> Net, lease: nat)
    reads repo.Objects()
  {
    && repo.Ready() && repo.Lease() <= lease
    && forall i: nat :: nets(i).up && nets(i).io.Acked? && (repo.Cached? ==> DeletionArrives(nets(i), lease))
  }

  ghost predicate DeletionArrives(net: Net, lease: nat) {
    && (forall id :: Invalidates(Database.Delete(id), net, lease))
    && (lease < COUNT_LOCK_TTL ==> GivesLockBack(net))
  }

  /** In figures: with every command answered and each deletion of the count taking less than a second, a repository is
      reliable. */
  lemma OrdinaryIsReliable(repo: Repository, nets: nat -> Net)
    requires repo.Ready() && repo.Lease() <= 3000
    requires forall i: nat :: nets(i).up && nets(i).io.Acked?
    requires forall i: nat :: nets(i).evict.outcome.Effective() && nets(i).retire.outcome.Effective()
    requires forall i: nat :: nets(i).del.outcome.Effective() && nets(i).del.lag < 1000
    requires forall i: nat, j: nat :: nets(i).tries(j).Acked?
    ensures Reliable(repo, nets, 3000)
  {
    forall i: nat, id ensures Invalidates(Database.Delete(id), nets(i), 3000) {
      OrdinaryCallsSettle(Database.Delete(id), nets(i), 3000);
    }
  }

  method ListOne(service: Service, req: ListTasksRequest, nets: nat -> Net, k: nat, ghost lease: nat) returns (page: Page)
    requires Reliable(service.repo, nets, lease)
    modifies service.repo.Objects()
    ensures Reliable(service.repo, nets, lease)
    ensures service.repo.State() == old(service.repo.State()) && page == PageOf(service.repo.State().rows, req)
  {
    hide PageOf, Repository.Ready;
    var r := service.List(req, nets(k));
    page := r.value;
  }

  /** Deletes one task over a reliable repository. */
  method DeleteOne(service: Service, id: int, now: int, nets: nat -> Net, k: nat, ghost lease: nat)
    requires Reliable(service.repo, nets, lease) && IsLive(service.repo.State().rows, id)
    modifies service.repo.Objects()
    ensures Reliable(service.repo, nets, lease)
    ensures service.repo.State().rows == After(old(service.repo.State().rows), Remove(id, now))
  {
    if service.repo.Cached? {
      SettlesSooner(Database.Delete(id), nets(k), lease, service.repo.Lease());
    }
    var _ := service.Delete(id, now, nets(k));
  }

  /** Deletes the tasks of one page; the calls are numbered from `k`. */
  method DeletePage(service: Service, tasks: seq<Task>, now: int, nets: nat -> Net, k: nat, ghost lease: nat)
    requires Reliable(service.repo, nets, lease) && TasksDescend(tasks)
    requires forall i :: 0 <= i < |tasks| ==> IsLive(service.repo.State().rows, tasks[i].id)
    modifies service.repo.Objects()
    ensures Reliable(service.repo, nets, lease)
    ensures Wiped(old(service.repo.State().rows), service.repo.State().rows, IdSet(tasks))
  {
    ghost var before := service.repo.State().rows;
    for i := 0 to |tasks|
      invariant Reliable(service.repo, nets, lease)
      invariant Wiped(before, service.repo.State().rows, IdSet(tasks[..i]))
    {
      ghost var gone := IdSet(tasks[..i]);
      assert tasks[i].id !in gone;
      WipedMore(before, service.repo.State().rows, gone, tasks[i].id, now);
      DeleteOne(service, tasks[i].id, now, nets, k + i, lease);
      assert tasks[..i + 1] == tasks[..i] + [tasks[i]];
      assert IdSet(tasks[..i + 1]) == gone + {tasks[i].id};
    }
    assert tasks[..|tasks|] == tasks;
  }

  lemma WipedTwice(before: Table, t: Table, t': Table, gone: set<int>, more: set<int>)
    requires Wiped(before, t, gone) && Wiped(t, t', more)
    ensures Wiped(before, t', gone + more)
  {
  }

  /** Once a page is deleted only matching rows below its cursor are left, if there are any. */
  lemma PageCleaned(t: Table, t': Table, assignee: string, cursor: int)
    requires MatchingIds(t, AskFor(assignee, cursor)) == MatchingIds(t, AskFor(assignee, 0))
    requires Wiped(t, t', IdSet(PageOf(t, AskFor(assignee, cursor)).tasks))
    ensures var page := PageOf(t, AskFor(assignee, cursor));
            && IdSet(page.tasks) <= MatchingIds(t, AskFor(assignee, 0))
            && forall id :: id in MatchingIds(t', AskFor(assignee, 0)) ==> page.hasMore && id < page.nextCursor
  {
    var req := AskFor(assignee, cursor);
    PageSound(t, req);
    LeftToDelete(t, t', IdSet(PageOf(t, req).tasks), assignee);
    forall id | id in MatchingIds(t', AskFor(assignee, 0))
      ensures PageOf(t, req).hasMore && id < PageOf(t, req).nextCursor
    {
      if !(PageOf(t, req).hasMore && id < PageOf(t, req).nextCursor) {
        PageComplete(t, req, id);
      }
    }
  }

  /** A further page means that some matching row is left: it was not on this one. */
  lemma MoreIsLeft(t: Table, t': Table, assignee: string, cursor: int)
    requires MatchingIds(t, AskFor(assignee, cursor)) == MatchingIds(t, AskFor(assignee, 0))
    requires Wiped(t, t', IdSet(PageOf(t, AskFor(assignee, cursor)).tasks)) && PageOf(t, AskFor(assignee, cursor)).hasMore
    ensures MatchingIds(t', AskFor(assignee, 0)) != {}
  {
    var req := AskFor(assignee, cursor);
    var tasks := PageOf(t, req).tasks;
    HasMoreMeaning(t, req);
    PageSound(t, req);
    LeftToDelete(t, t', IdSet(tasks), assignee);
    var id :| id in Matching(t, req) && id < tasks[|tasks| - 1].id;
    assert id in MatchingIds(t', AskFor(assignee, 0));
  }

  /** The rows of a page are live and its cursor goes down. */
  lemma PageListed(t: Table, assignee: string, cursor: int)
    requires cursor >= 0
    ensures var page := PageOf(t, AskFor(assignee, cursor));
            && TasksDescend(page.tasks) && (forall i :: 0 <= i < |page.tasks| ==> IsLive(t, page.tasks[i].id))
            && (page.hasMore ==> page.nextCursor >= 1 && (cursor > 0 ==> page.nextCursor < cursor))
  {
    hide PageOf;
    PageSound(t, AskFor(assignee, cursor));
    if PageOf(t, AskFor(assignee, cursor)).hasMore {
      CursorDescends(t, AskFor(assignee, cursor));
    }
  }

  /** One round of the loop; `next` is the cursor to go on with, or zero, and `k'` the number of the next call. */
  method CleanPage(service: Service, assignee: string, cursor: int, now: int, nets: nat -> Net, k: nat, ghost lease: nat)
    returns (next: int, k': nat)
    requires Reliable(service.repo, nets, lease) && cursor >= 0
    requires cursor > 0 ==> forall id :: id in MatchingIds(service.repo.State().rows, AskFor(assignee, 0)) ==> id < cursor
    modifies service.repo.Objects()
    ensures Reliable(service.repo, nets, lease)
    ensures next >= 0 && (cursor > 0 ==> next < cursor)
    ensures exists gone: set<int> :: gone <= MatchingIds(old(service.repo.State().rows), AskFor(assignee, 0))
                                     && Wiped(old(service.repo.State().rows), service.repo.State().rows, gone)
    ensures forall id :: id in MatchingIds(service.repo.State().rows, AskFor(assignee, 0)) ==> next != 0 && id < next
    ensures next != 0 ==> MatchingIds(service.repo.State().rows, AskFor(assignee, 0)) != {}
    ensures forall id :: id in old(service.repo.Db().rows)
                         && (old(service.repo.Db().rows)[id].deletedAt.Some?
                             || (assignee != "" && old(service.repo.Db().rows)[id].task.assignee != assignee)) ==>
                           && id in service.repo.Db().rows
                           && service.repo.Db().rows[id] == old(service.repo.Db().rows)[id]
  {
    hide PageOf, Reliable;
    AskedByFields(service.repo.State().rows, assignee);
    ghost var t := service.repo.State().rows;
    var req := AskFor(assignee, cursor);
    CursorNarrows(t, assignee, cursor);
    var page := ListOne(service, req, nets, k, lease);
    PageListed(t, assignee, cursor);
    DeletePage(service, page.tasks, now, nets, k + 1, lease);
    PageCleaned(t, service.repo.State().rows, assignee, cursor);
    if page.hasMore {
      MoreIsLeft(t, service.repo.State().rows, assignee, cursor);
    }
    next, k' := if page.hasMore then page.nextCursor else 0, k + 1 + |page.tasks|;
  }

  /** With every call succeeding, over the adapter or through the cache, and no other client, exactly the live tasks of
      the assignee are deleted. */
  method Clean(service: Service, assignee: string, now: int, nets: nat -> Net, ghost lease: nat)
    requires Reliable(service.repo, nets, lease)
    modifies service.repo.Objects()
    ensures service.repo.Ready()
    ensures MatchingIds(service.repo.State().rows, AskFor(assignee, 0)) == {}
    ensures Wiped(old(service.repo.State().rows), service.repo.State().rows,
                  MatchingIds(old(service.repo.State().rows), AskFor(assignee, 0)))
    // by the fields of the rows: no live task of the assignee is left, each keeps its contents, and no one else's moves;
    // an empty assignee asks for everyone's
    ensures forall id :: id in service.repo.Db().rows && service.repo.Db().rows[id].deletedAt.None? ==>
                           assignee != "" && service.repo.Db().rows[id].task.assignee != assignee
    ensures service.repo.Db().rows.Keys == old(service.repo.Db().rows).Keys
    ensures forall id :: id in old(service.repo.Db().rows) ==>
                           var was, row := old(service.repo.Db().rows)[id], service.repo.Db().rows[id];
                           if was.deletedAt.None? && (assignee == "" || was.task.assignee == assignee)
                           then row.deletedAt.Some? && row.task == was.task
                           else row == was
  {
    AskedByFields(service.repo.State().rows, assignee);
    ghost var before, gone: set<int> := service.repo.State().rows, {};
    var cursor, k, going := 0, 0, true;
    while going
      invariant Reliable(service.repo, nets, lease) && cursor >= 0 && k >= 0
      invariant Wiped(before, service.repo.State().rows, gone) && gone <= MatchingIds(before, AskFor(assignee, 0))
      invariant cursor > 0 || !going ==>
                  forall id :: id in MatchingIds(service.repo.State().rows, AskFor(assignee, 0)) ==>
                                 cursor != 0 && id < cursor
      invariant going || cursor == 0
      decreases going, cursor <= 0, cursor
    {
      ghost var t := service.repo.State().rows;
      cursor, k := CleanPage(service, assignee, cursor, now, nets, k, lease);
      ghost var more :| more <= MatchingIds(t, AskFor(assignee, 0)) && Wiped(t, service.repo.State().rows, more);
      LeftToDelete(before, t, gone, assignee);
      WipedTwice(before, t, service.repo.State().rows, gone, more);
      gone := gone + more;
      going := cursor != 0;
    }
    LeftToDelete(before, service.repo.State().rows, gone, assignee);
    ghost var wanted := MatchingIds(before, AskFor(assignee, 0));
    forall id | id in wanted ensures id in gone {
      assert id !in gone ==> id in wanted - gone;
    }
    AskedByFields(service.repo.State().rows, assignee);
  }
}
