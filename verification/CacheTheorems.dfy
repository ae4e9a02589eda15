/** What callers of the cache can rely on over every run, from an empty cache, with any number of clients, arbitrarily
    delayed and lost commands, and any eviction of keys other than the count lock. */
module CacheTheorems {
  import opened Prelude
  import opened Tasks
  import opened TaskTable
  import opened Redis
  import opened CacheProtocol
  import opened CacheHistory
  import opened CacheProvenance
  import opened ListFreshness
  import opened CountLock
  import opened CountFreshness
  import opened TaskGuarantee

  ghost predicate Sound(s: State) {
    TimelineOk(s) && OwnersOk(s) && WritersOk(s) && ProvenanceOk(s) && ListOk(s) && LockOk(s) && TasksOk(s)
  }

  lemma StepKeeps(s: State, a: Step)
    requires Enabled(s, a) && Sound(s)
    ensures Sound(Stepped(s, a)) && Stepped(s, a).cfg == s.cfg
  {
    TimelineKept(s, a);
    WritersKept(s, a);
    ProvenanceKept(s, a);
    ListKept(s, a);
    LockKept(s, a);
    TasksKept(s, a);
    ConfigStands(s, a);
  }

  lemma ConfigStands(s: State, a: Step)
    requires Enabled(s, a)
    ensures Stepped(s, a).cfg == s.cfg
  {
    match a
    case Env(_) =>
    case Getting(c, g) => GetLocal(s, c, g);
    case Listing(c, l) => ListLocal(s, c, l);
    case Counting(c, n) => CountLocal(s, c, n);
    case Writing(c, w) =>
      if w.Commit? {
        CommitLocal(s, c, w.write, w.acked);
      } else {
        WriteLocal(s, c, w);
      }
  }

  lemma InitialSound(s: State)
    requires Initial(s)
    ensures Sound(s)
  {
  }

  lemma {:induction false} RunKeeps(s: State, run: seq<Step>)
    requires Sound(s) && Feasible(s, run)
    ensures Sound(Run(s, run)) && Run(s, run).cfg == s.cfg
    decreases |run|
  {
    if run != [] {
      StepKeeps(s, run[0]);
      RunKeeps(Stepped(s, run[0]), run[1..]);
    }
  }

  lemma {:induction false} RunJoins(s: State, first: seq<Step>, second: seq<Step>)
    requires Feasible(s, first + second)
    ensures Feasible(s, first) && Feasible(Run(s, first), second)
    ensures Run(s, first + second) == Run(Run(s, first), second)
    decreases |first|
  {
    if first == [] {
      assert first + second == second;
    } else {
      assert (first + second)[1..] == first[1..] + second;
      RunJoins(Stepped(s, first[0]), first[1..], second);
    }
  }

  // ----- what only grows -----

  ghost predicate Grows(s: State, s': State) {
    s.db <= s'.db && s.log <= s'.log && s.h.retired <= s'.h.retired && s.h.evicted <= s'.h.evicted
  }

  lemma StepGrows(s: State, a: Step)
    requires Enabled(s, a)
    ensures Grows(s, Stepped(s, a))
  {
    match a
    case Env(_) =>
    case Getting(c, g) => GetLocal(s, c, g);
    case Listing(c, l) => ListLocal(s, c, l);
    case Counting(c, n) => CountLocal(s, c, n);
    case Writing(c, w) =>
      if w.Commit? {
        CommitLocal(s, c, w.write, w.acked);
        CommitGrowsHistory(s, c, w.write, w.acked);
      } else {
        WriteLocal(s, c, w);
        WriteGrowsHistory(s, c, w);
      }
  }

  lemma {:induction false} RunGrows(s: State, run: seq<Step>)
    requires Feasible(s, run)
    ensures Grows(s, Run(s, run))
    decreases |run|
  {
    if run != [] {
      StepGrows(s, run[0]);
      RunGrows(Stepped(s, run[0]), run[1..]);
    }
  }

  lemma Extended(s0: State, first: seq<Step>, second: seq<Step>)
    requires Feasible(s0, first + second)
    ensures Feasible(s0, first) && Grows(Run(s0, first), Run(s0, first + second))
  {
    RunJoins(s0, first, second);
    RunGrows(Run(s0, first), second);
  }

  // ----- List -----

  /** Client `c` starts a call. */
  predicate Begins(a: Step, c: Client) {
    match a
    case Getting(d, g) => d == c && g.GetBegin?
    case Listing(d, l) => d == c && l.ListBegin?
    case Counting(d, n) => d == c && n.CountBegin?
    case Writing(d, w) => d == c && w.Commit?
    case Env(_) => false
  }

  function ListCall(p: Proc): Option<(ListTasksRequest, set<nat>)> {
    match p
    case ListStarting(req, since) => Some((req, since))
    case ListLoading(req, since, _) => Some((req, since))
    case ListReading(req, since, _) => Some((req, since))
    case ListStoring(req, since, _, _, _) => Some((req, since))
    case ListDone(req, since, _, _) => Some((req, since))
    case _ => None
  }

  /** The client a step belongs to, if any. */
  function Actor(a: Step): Option<Client> {
    match a
    case Env(_) => None
    case Getting(c, _) => Some(c)
    case Listing(c, _) => Some(c)
    case Counting(c, _) => Some(c)
    case Writing(c, _) => Some(c)
  }

  lemma OthersStand(s: State, a: Step, c: Client)
    requires Enabled(s, a) && Actor(a) != Some(c)
    ensures Stepped(s, a).At(c) == s.At(c)
  {
    match a
    case Env(_) =>
    case Getting(d, g) => GetLocal(s, d, g);
    case Listing(d, l) => ListLocal(s, d, l);
    case Counting(d, n) => CountLocal(s, d, n);
    case Writing(d, w) => WriteMovesOne(s, d, w);
  }

  /** A client's own step keeps it within the kind of call the step belongs to. */
  lemma OwnStepKind(s: State, a: Step)
    requires Enabled(s, a) && Actor(a).Some?
    ensures var p := Stepped(s, a).At(Actor(a).value);
            match a
            case Getting(_, _) => InGet(p)
            case Listing(_, _) => InList(p)
            case Counting(_, _) => InCount(p)
            case Writing(_, _) => InWrite(p)
            case Env(_) => true
  {
    match a
    case Getting(d, g) => GetLocal(s, d, g);
    case Listing(d, l) => ListLocal(s, d, l);
    case Counting(d, n) => CountLocal(s, d, n);
    case Writing(d, w) => WriteStaysWrite(s, d, w);
  }

  lemma ListCallContinues(s: State, c: Client, l: ListStep)
    requires ListEnabled(s, c, l) && !l.ListBegin?
    ensures ListCall(ListStepped(s, c, l).At(c)) in {None, ListCall(s.At(c))}
  {
  }

  lemma ListCallStands(s: State, a: Step, c: Client)
    requires Enabled(s, a) && !Begins(a, c) && ListCall(Stepped(s, a).At(c)).Some?
    ensures ListCall(s.At(c)) == ListCall(Stepped(s, a).At(c))
  {
    if Actor(a) != Some(c) {
      OthersStand(s, a, c);
    } else {
      OwnStepKind(s, a);
      if a.Listing? {
        ListCallContinues(s, c, a.l);
      }
    }
  }

  lemma {:induction false} ListCallRuns(s: State, run: seq<Step>, c: Client)
    requires Feasible(s, run) && ListCall(Run(s, run).At(c)).Some?
    requires forall i :: 0 <= i < |run| ==> !Begins(run[i], c)
    ensures ListCall(s.At(c)) == ListCall(Run(s, run).At(c))
    decreases |run|
  {
    if run != [] {
      ListCallRuns(Stepped(s, run[0]), run[1..], c);
      ListCallStands(s, run[0], c);
    }
  }

  /** List freshness: the page returned is the database's answer at a version no older than any write that had
      committed and replaced the generation token before the call began, and no newer than the return. */
  lemma ListIsFresh(s0: State, before: seq<Step>, c: Client, req: ListTasksRequest, during: seq<Step>)
    requires Initial(s0) && Feasible(s0, before + ([Listing(c, ListBegin(req))] + during))
    requires forall i :: 0 <= i < |during| ==> !Begins(during[i], c)
    requires Run(s0, before + ([Listing(c, ListBegin(req))] + during)).At(c).ListDone?
    ensures Feasible(s0, before)
    ensures var s := Run(s0, before + ([Listing(c, ListBegin(req))] + during));
            && s.At(c).req == req
            && exists v: nat :: v <= s.Version() < |s.db| && s.At(c).page == ListAnswer(s.db[v], req)
                                && UpTo(Run(s0, before).h.retired, v)
  {
    var call := [Listing(c, ListBegin(req))] + during;
    var s := Run(s0, before + call);
    RunJoins(s0, before, call);
    var s1 := Run(s0, before);
    var s2 := Stepped(s1, Listing(c, ListBegin(req)));
    assert call[1..] == during;
    ListCallRuns(s2, during, c);
    assert ListCall(s2.At(c)) == Some((req, s1.h.retired));
    InitialSound(s0);
    RunKeeps(s0, before + call);
    assert ReaderOk(s, s.At(c)) && ProcOk(s, s.At(c));
  }

  /** No client is between the commit of write `w` and its token replacement, and the replacement was not lost. */
  ghost predicate RetirementSettled(s: State, w: nat) {
    && w !in s.h.retireLost
    && forall c :: c in s.procs ==> s.procs[c] != Evicting(w) && s.procs[c] != Retiring(w)
  }

  /** Every write newer than what a reachable page shows still has to replace the token, or failed to. */
  lemma PageLagsOnlyUnretired(s: State, req: ListTasksRequest, w: nat)
    requires Sound(s) && s.Token().Some?
    requires var k := PageKey(s.Token().value, req);
             k in s.store.entries && s.origin[k].snap.version < w <= |s.log|
    ensures w !in s.h.retired
    ensures w in s.h.retireLost || exists c :: c in s.procs && s.procs[c] in {Evicting(w), Retiring(w)}
  {
    assert Accounted(s, w);
  }

  /** The same for a page a client is about to store under the token in force. */
  lemma FillLagsOnlyUnretired(s: State, c: Client, w: nat)
    requires Sound(s) && s.At(c).ListStoring? && s.Token() == Some(s.At(c).generation)
    requires s.At(c).snap.version < w <= |s.log|
    ensures w !in s.h.retired
    ensures w in s.h.retireLost || exists d :: d in s.procs && s.procs[d] in {Evicting(w), Retiring(w)}
  {
    assert Accounted(s, w) && ReaderOk(s, s.At(c));
  }

  lemma PageIsCurrent(s: State, req: ListTasksRequest)
    requires Sound(s) && s.Token().Some? && PageKey(s.Token().value, req) in s.store.entries
    requires forall w :: 1 <= w <= |s.log| ==> RetirementSettled(s, w)
    ensures var k := PageKey(s.Token().value, req); k in s.origin && s.origin[k].snap.version == s.Version()
  {
    var k := PageKey(s.Token().value, req);
    assert EntryOk(s, k);
    if s.origin[k].snap.version < |s.log| {
      assert RetirementSettled(s, |s.log|);
      PageLagsOnlyUnretired(s, req, |s.log|);
    }
  }

  lemma PageExact(s: State, req: ListTasksRequest)
    requires Sound(s) && s.Token().Some? && s.store.Get(PageKey(s.Token().value, req)).Some?
    requires forall w :: 1 <= w <= |s.log| ==> RetirementSettled(s, w)
    ensures s.store.Get(PageKey(s.Token().value, req)) == Some(PageValue(ListAnswer(s.Latest(), req)))
  {
    PageIsCurrent(s, req);
    assert EntryOk(s, PageKey(s.Token().value, req));
  }

  /** With every write's retirement settled, each reachable page is what the database would answer now. */
  lemma ReachablePagesExact(s0: State, run: seq<Step>, req: ListTasksRequest)
    requires Initial(s0) && Feasible(s0, run)
    ensures var s := Run(s0, run);
            s.Token().Some? && s.store.Get(PageKey(s.Token().value, req)).Some?
            && (forall w :: 1 <= w <= |s.log| ==> RetirementSettled(s, w))
            ==> s.store.Get(PageKey(s.Token().value, req)) == Some(PageValue(ListAnswer(s.Latest(), req)))
  {
    var s := Run(s0, run);
    InitialSound(s0);
    RunKeeps(s0, run);
    if s.Token().Some? && s.store.Get(PageKey(s.Token().value, req)).Some?
       && forall w :: 1 <= w <= |s.log| ==> RetirementSettled(s, w)
    {
      PageExact(s, req);
    }
  }

  // ----- retired tokens -----

  /** A random token that has been drawn and is not the generation in force. */
  ghost predicate Spent(s: State, t: string) {
    t in s.drawn && s.Token() != Some(t)
  }

  function GenerationOf(p: Proc): Option<string> {
    match p
    case ListLoading(_, _, g) => Some(g)
    case ListReading(_, _, under) => under
    case ListStoring(_, _, g, _, _) => Some(g)
    case _ => None
  }

  /** The clients that will look up or store a page under generation `t`. */
  ghost function Users(s: State, t: string): set<Client> {
    set c | c in s.procs && GenerationOf(s.procs[c]) == Some(t)
  }

  lemma GetKeepsSpent(s: State, c: Client, g: GetStep, t: string)
    requires GetEnabled(s, c, g) && Spent(s, t)
    ensures Spent(GetStepped(s, c, g), t)
  {
  }

  lemma ListKeepsSpent(s: State, c: Client, l: ListStep, t: string)
    requires ListEnabled(s, c, l) && Spent(s, t)
    ensures Spent(ListStepped(s, c, l), t)
  {
  }

  lemma CountKeepsSpent(s: State, s': State, c: Client, t: string)
    requires CountFrame(s, s', c) && Spent(s, t)
    ensures Spent(s', t)
  {
    assert GenerationKey != CountKey && GenerationKey != CountLockKey;
  }

  lemma WriteKeepsSpent(s: State, c: Client, w: WriteStep, t: string)
    requires WriteEnabled(s, c, w) && Spent(s, t)
    ensures Spent(WriteStepped(s, c, w), t)
  {
  }

  lemma TokensAreFresh(s: State, a: Step, t: string)
    requires Enabled(s, a) && Spent(s, t)
    ensures Spent(Stepped(s, a), t)
  {
    match a
    case Env(_) =>
    case Getting(c, g) => GetKeepsSpent(s, c, g, t);
    case Listing(c, l) => ListKeepsSpent(s, c, l, t);
    case Counting(c, n) => CountLocal(s, c, n); CountKeepsSpent(s, Stepped(s, a), c, t);
    case Writing(c, w) => WriteKeepsSpent(s, c, w, t);
  }

  /** A client comes by a generation only by reading the one in force. */
  lemma ListUsesCurrent(s: State, c: Client, l: ListStep, t: string)
    requires ListEnabled(s, c, l) && ListStepped(s, c, l).Token() != Some(t)
    ensures GenerationOf(ListStepped(s, c, l).At(c)) == Some(t) ==> GenerationOf(s.At(c)) == Some(t)
  {
  }

  lemma NoNewUsers(s: State, a: Step, t: string)
    requires Enabled(s, a) && Spent(Stepped(s, a), t)
    ensures Users(Stepped(s, a), t) <= Users(s, t)
  {
    forall c | c in Users(Stepped(s, a), t) ensures c in Users(s, t) {
      if Actor(a) != Some(c) {
        OthersStand(s, a, c);
      } else {
        OwnStepKind(s, a);
        ListUsesCurrent(s, c, a.l, t);
      }
    }
  }

  /** Retired tokens are dead: a token once replaced, expired or evicted is never in force again, and no call beyond
      those already using it ever builds a key under it. */
  lemma {:induction false} SpentForever(s: State, run: seq<Step>, t: string)
    requires Feasible(s, run) && Spent(s, t)
    ensures Spent(Run(s, run), t) && Users(Run(s, run), t) <= Users(s, t)
    decreases |run|
  {
    if run != [] {
      TokensAreFresh(s, run[0], t);
      NoNewUsers(s, run[0], t);
      SpentForever(Stepped(s, run[0]), run[1..], t);
    }
  }

  // ----- Count -----

  function CountCall(p: Proc): Option<set<nat>> {
    match p
    case CountLoading(since, _) => Some(since)
    case CountMissed(since, _) => Some(since)
    case CountLocking(since, _, _) => Some(since)
    case CountRechecking(since, _, _) => Some(since)
    case CountFilling(since, _, _) => Some(since)
    case CountSetting(since, _, _, _) => Some(since)
    case CountBypassing(since, _, _) => Some(since)
    case CountReleasing(since, _, _) => Some(since)
    case CountDone(since, _) => Some(since)
    case _ => None
  }

  lemma CountCallContinues(s: State, c: Client, n: CountStep)
    requires CountEnabled(s, c, n) && !n.CountBegin?
    ensures CountCall(CountStepped(s, c, n).At(c)) in {None, CountCall(s.At(c))}
  {
  }

  lemma CountCallStands(s: State, a: Step, c: Client)
    requires Enabled(s, a) && !Begins(a, c) && CountCall(Stepped(s, a).At(c)).Some?
    ensures CountCall(s.At(c)) == CountCall(Stepped(s, a).At(c))
  {
    if Actor(a) != Some(c) {
      OthersStand(s, a, c);
    } else {
      OwnStepKind(s, a);
      if a.Counting? {
        CountCallContinues(s, c, a.n);
      }
    }
  }

  lemma {:induction false} CountCallRuns(s: State, run: seq<Step>, c: Client)
    requires Feasible(s, run) && CountCall(Run(s, run).At(c)).Some?
    requires forall i :: 0 <= i < |run| ==> !Begins(run[i], c)
    ensures CountCall(s.At(c)) == CountCall(Run(s, run).At(c))
    decreases |run|
  {
    if run != [] {
      CountCallRuns(Stepped(s, run[0]), run[1..], c);
      CountCallStands(s, run[0], c);
    }
  }

  /** Each count stored along the run is stored while the lease of its fill lasts. */
  ghost predicate LeasesHonoured(s: State, run: seq<Step>)
    requires Feasible(s, run)
    decreases |run|
  {
    run == [] || (HonoursLease(s, run[0]) && LeasesHonoured(Stepped(s, run[0]), run[1..]))
  }

  lemma {:induction false} RunKeepsCount(s: State, run: seq<Step>)
    requires Sound(s) && CountOk(s) && Feasible(s, run) && LeasesHonoured(s, run)
    ensures CountOk(Run(s, run))
    decreases |run|
  {
    if run != [] {
      StepKeeps(s, run[0]);
      CountKept(s, run[0]);
      RunKeepsCount(Stepped(s, run[0]), run[1..]);
    }
  }

  /** Each count stored along the run is stored before the deadline of its call. */
  ghost predicate NoLateFills(s: State, run: seq<Step>)
    requires Feasible(s, run)
    decreases |run|
  {
    run == [] || (FillsInTime(s, run[0]) && NoLateFills(Stepped(s, run[0]), run[1..]))
  }

  lemma {:induction false} DeadlinesHonourLeases(s: State, run: seq<Step>)
    requires DeadlinesOk(s) && Feasible(s, run) && NoLateFills(s, run)
    ensures LeasesHonoured(s, run)
    decreases |run|
  {
    if run != [] {
      DeadlineHonoursLease(s, run[0]);
      DeadlinesKept(s, run[0]);
      DeadlinesHonourLeases(Stepped(s, run[0]), run[1..]);
    }
  }

  /** Calls that are over before a lease can be, and whose fills do not land late, store no count beyond a lease. */
  lemma {:induction false} ShortCallsHonourLeases(s0: State, run: seq<Step>)
    requires Initial(s0) && Feasible(s0, run) && s0.cfg.countTimeout <= COUNT_LOCK_TTL && NoLateFills(s0, run)
    ensures LeasesHonoured(s0, run)
  {
    DeadlinesHonourLeases(s0, run);
  }

  /** What a call knows of settled writes is what was settled when it began. */
  lemma CountCallSince(s0: State, before: seq<Step>, c: Client, during: seq<Step>)
    requires Feasible(s0, before + ([Counting(c, CountBegin)] + during))
    requires forall i :: 0 <= i < |during| ==> !Begins(during[i], c)
    requires Run(s0, before + ([Counting(c, CountBegin)] + during)).At(c).CountDone?
    ensures Feasible(s0, before)
    ensures Run(s0, before + ([Counting(c, CountBegin)] + during)).At(c).since == Run(s0, before).h.invalidated
  {
    var call := [Counting(c, CountBegin)] + during;
    RunJoins(s0, before, call);
    var s1 := Run(s0, before);
    var s2 := Stepped(s1, Counting(c, CountBegin));
    assert call[1..] == during;
    CountCallRuns(s2, during, c);
    assert CountCall(s2.At(c)) == Some(s1.h.invalidated);
  }

  lemma DoneIsCounted(s: State, c: Client)
    requires Sound(s) && CountOk(s) && s.At(c).CountDone?
    ensures exists v: nat :: v <= s.Version() < |s.db| && s.At(c).result.n == LiveCount(s.db[v])
                             && UpTo(s.At(c).since, v)
  {
    assert CounterOk(s, s.At(c)) && ProcOk(s, s.At(c));
  }

  /** Count freshness: in any run in which each fill stores its count while its lease lasts, however long the calls
      take, the count returned is the database's at a version no older than any write whose invalidation was over
      before the call began. */
  lemma CountIsFreshWithinLease(s0: State, before: seq<Step>, c: Client, during: seq<Step>)
    requires Initial(s0) && Feasible(s0, before + ([Counting(c, CountBegin)] + during))
    requires LeasesHonoured(s0, before + ([Counting(c, CountBegin)] + during))
    requires forall i :: 0 <= i < |during| ==> !Begins(during[i], c)
    requires Run(s0, before + ([Counting(c, CountBegin)] + during)).At(c).CountDone?
    ensures Feasible(s0, before)
    ensures var s := Run(s0, before + ([Counting(c, CountBegin)] + during));
            exists v: nat :: v <= s.Version() < |s.db| && s.At(c).result.n == LiveCount(s.db[v])
                             && UpTo(Run(s0, before).h.invalidated, v)
  {
    var run := before + ([Counting(c, CountBegin)] + during);
    CountCallSince(s0, before, c, during);
    InitialSound(s0);
    RunKeeps(s0, run);
    RunKeepsCount(s0, run);
    DoneIsCounted(Run(s0, run), c);
  }

  /** The same for calls that cannot outlast a lease and whose fills do not land late. */
  lemma CountIsFresh(s0: State, before: seq<Step>, c: Client, during: seq<Step>)
    requires Initial(s0) && Feasible(s0, before + ([Counting(c, CountBegin)] + during))
    requires s0.cfg.countTimeout <= COUNT_LOCK_TTL
    requires NoLateFills(s0, before + ([Counting(c, CountBegin)] + during))
    requires forall i :: 0 <= i < |during| ==> !Begins(during[i], c)
    requires Run(s0, before + ([Counting(c, CountBegin)] + during)).At(c).CountDone?
    ensures Feasible(s0, before)
    ensures var s := Run(s0, before + ([Counting(c, CountBegin)] + during));
            exists v: nat :: v <= s.Version() < |s.db| && s.At(c).result.n == LiveCount(s.db[v])
                             && UpTo(Run(s0, before).h.invalidated, v)
  {
    ShortCallsHonourLeases(s0, before + ([Counting(c, CountBegin)] + during));
    CountIsFreshWithinLease(s0, before, c, during);
  }

  /** Every invalidation of write `w`, if it needs one, is over. */
  ghost predicate InvalidationSettled(s: State, w: nat) {
    && w !in s.h.invalidateLost
    && forall c :: c in s.procs ==>
                     var p := s.procs[c];
                     p.Evicting? || p.Retiring? || p.Invalidating? || p.Locking? || p.Deleting? ==> p.version != w
  }

  lemma {:induction false} CountStands(s: State, v: nat, u: nat)
    requires TimelineOk(s) && v <= u < |s.db|
    requires forall i :: v <= i < u ==> s.log[i].Patch?
    ensures LiveCount(s.db[u]) == LiveCount(s.db[v])
  {
    if v < u {
      CountStands(s, v, u - 1);
      CountAfter(s.db[u - 1], s.log[u - 1]);
    }
  }

  ghost predicate CountsSettled(s: State) {
    forall i :: 0 <= i < |s.log| && ChangesCount(s.log[i]) ==> InvalidationSettled(s, i + 1)
  }

  /** Writes newer than every finished invalidation, with all of those settled, need none. */
  lemma NewerArePatches(s: State, v: nat)
    requires WritersOk(s) && CountsSettled(s) && UpTo(s.h.invalidated, v)
    ensures forall i :: v <= i < |s.log| ==> s.log[i].Patch?
  {
    forall i | v <= i < |s.log| ensures s.log[i].Patch? {
      assert Accounted(s, i + 1);
    }
  }

  lemma CountExact(s: State)
    requires Sound(s) && CountOk(s) && s.store.Get(CountKey).Some? && CountsSettled(s)
    ensures s.store.Get(CountKey) == Some(CountValue(LiveCount(s.Latest())))
  {
    hide LiveCount, CountsSettled, WritersOk;
    assert EntryOk(s, CountKey);
    var v := s.origin[CountKey].snap.version;
    NewerArePatches(s, v);
    CountStands(s, v, |s.log|);
  }

  /** With every invalidation settled the cached count is the true one; updates need none. */
  lemma CachedCountExactWithinLease(s0: State, run: seq<Step>)
    requires Initial(s0) && Feasible(s0, run) && LeasesHonoured(s0, run)
    ensures var s := Run(s0, run);
            s.store.Get(CountKey).Some? && CountsSettled(s)
            ==> s.store.Get(CountKey) == Some(CountValue(LiveCount(s.Latest())))
  {
    InitialSound(s0);
    RunKeeps(s0, run);
    RunKeepsCount(s0, run);
    if Run(s0, run).store.Get(CountKey).Some? && CountsSettled(Run(s0, run)) {
      CountExact(Run(s0, run));
    }
  }

  /** The same for calls that cannot outlast a lease and whose fills do not land late. */
  lemma CachedCountExact(s0: State, run: seq<Step>)
    requires Initial(s0) && Feasible(s0, run) && s0.cfg.countTimeout <= COUNT_LOCK_TTL && NoLateFills(s0, run)
    ensures var s := Run(s0, run);
            s.store.Get(CountKey).Some? && CountsSettled(s)
            ==> s.store.Get(CountKey) == Some(CountValue(LiveCount(s.Latest())))
  {
    ShortCallsHonourLeases(s0, run);
    CachedCountExactWithinLease(s0, run);
  }

  /** Every insert or deletion newer than what the cached count shows has its invalidation lost or still ahead of its
      client. */
  lemma CountLagsOnlyUninvalidated(s: State, w: nat)
    requires Sound(s) && CountOk(s) && CountKey in s.store.entries
    requires s.origin[CountKey].snap.version < w <= |s.log| && !s.log[w - 1].Patch?
    ensures w !in s.h.invalidated
    ensures w in s.h.invalidateLost || exists c ::
              && c in s.procs && PendingVersion(s.procs[c]) == Some(w) && !s.procs[c].Releasing?
  {
    hide OwnersOk, ProvenanceOk, ListOk, LockOk, TasksOk;
    assert Accounted(s, w);
  }

  /** The count the service asks for: its calls end after 2 s. */
  lemma ServiceCountIsFresh(s0: State, before: seq<Step>, c: Client, during: seq<Step>)
    requires Initial(s0) && Feasible(s0, before + ([Counting(c, CountBegin)] + during))
    requires s0.cfg.countTimeout == 2000
    requires NoLateFills(s0, before + ([Counting(c, CountBegin)] + during))
    requires forall i :: 0 <= i < |during| ==> !Begins(during[i], c)
    requires Run(s0, before + ([Counting(c, CountBegin)] + during)).At(c).CountDone?
    ensures Feasible(s0, before)
    ensures var s := Run(s0, before + ([Counting(c, CountBegin)] + during));
            exists v: nat :: v <= s.Version() < |s.db| && s.At(c).result.n == LiveCount(s.db[v])
                             && UpTo(Run(s0, before).h.invalidated, v)
  {
    CountIsFresh(s0, before, c, during);
  }

  // ----- a quiet cache -----

  lemma QuietIsSettled(s: State)
    requires forall c :: c in s.procs ==> AtRest(s.procs[c])
    requires s.h.retireLost == {} && s.h.evictLost == {} && s.h.invalidateLost == {}
    ensures CountsSettled(s) && (forall w: nat :: RetirementSettled(s, w)) && forall id :: EvictionsSettled(s, id)
  {
  }

  /** With every client between calls and no invalidating command lost, every reachable page and the count are what the
      database would answer now, and so is every task whose fill overtook no eviction. */
  lemma QuietCacheExact(s0: State, run: seq<Step>, req: ListTasksRequest, id: int)
    requires Initial(s0) && Feasible(s0, run) && LeasesHonoured(s0, run)
    requires forall c :: c in Run(s0, run).procs ==> AtRest(Run(s0, run).procs[c])
    requires var h := Run(s0, run).h; h.retireLost == {} && h.evictLost == {} && h.invalidateLost == {}
    ensures var s := Run(s0, run);
            && (s.Token().Some? ==> s.store.Get(PageKey(s.Token().value, req)) in
                                      {None, Some(PageValue(ListAnswer(s.Latest(), req)))})
            && s.store.Get(CountKey) in {None, Some(CountValue(LiveCount(s.Latest())))}
            && (s.store.Get(TaskKey(id)).Some? && !Overtaken(s, id) ==>
                  && Lookup(s.Latest(), id).Some?
                  && s.store.Get(TaskKey(id)) == Some(TaskValue(Lookup(s.Latest(), id).value)))
  {
    hide LiveCount, ListAnswer, Initial, LeasesHonoured;
    var s := Run(s0, run);
    QuietIsSettled(s);
    ReachablePagesExact(s0, run, req);
    CachedCountExactWithinLease(s0, run);
    if s.store.Get(TaskKey(id)).Some? {
      CachedTaskLagsIffOvertaken(s0, run, id);
    }
  }

  // ----- the count lock -----

  /** No lease on the lock lasts longer than 3 s. */
  ghost predicate LeaseShort(s: State) {
    CountLockKey in s.store.entries ==> s.store.entries[CountLockKey].expires <= s.Now() + 3000
  }

  lemma CountKeepsLeaseShort(s: State, c: Client, n: CountStep)
    requires CountEnabled(s, c, n) && LeaseShort(s)
    ensures LeaseShort(CountStepped(s, c, n))
  {
    hide LiveCount;
    CountLocal(s, c, n);
    if !n.CountTryLock? && !n.CountRelease? {
      CountLeavesLock(s, c, n);
    }
  }

  lemma WriteKeepsLeaseShort(s: State, c: Client, w: WriteStep)
    requires WriteEnabled(s, c, w) && LeaseShort(s)
    ensures LeaseShort(WriteStepped(s, c, w))
  {
    hide After, Allowed;
    WriteMovesOne(s, c, w);
    if !w.TryLock? && !w.Release? {
      WriteLeavesLock(s, c, w);
    }
  }

  lemma StepKeepsLeaseShort(s: State, a: Step)
    requires Enabled(s, a) && LeaseShort(s)
    ensures LeaseShort(Stepped(s, a))
  {
    match a
    case Env(_) =>
    case Getting(c, g) => GetLeavesLock(s, c, g); GetLocal(s, c, g);
    case Listing(c, l) => ListLeavesLock(s, c, l); ListLocal(s, c, l);
    case Counting(c, n) => CountKeepsLeaseShort(s, c, n);
    case Writing(c, w) => WriteKeepsLeaseShort(s, c, w);
  }

  lemma {:induction false} LeasesAreShort(s: State, run: seq<Step>)
    requires Feasible(s, run) && LeaseShort(s)
    ensures LeaseShort(Run(s, run))
    decreases |run|
  {
    if run != [] {
      StepKeepsLeaseShort(s, run[0]);
      LeasesAreShort(Stepped(s, run[0]), run[1..]);
    }
  }

  /** The lock is worth waiting for: from any reachable state in which a writer is about to invalidate the count, if it
      waits 3 s and no one else takes the lock meanwhile, its attempt succeeds, whatever lease was left, and a deletion
      that takes less than another second removes the count. */
  lemma InvalidationOutwaitsLeases(s0: State, run: seq<Step>, c: Client, text: string, lag: nat)
    requires Initial(s0) && Feasible(s0, run) && Run(s0, run).At(c).Invalidating?
    requires text !in Run(s0, run).drawn && lag < 1000
    ensures var s := Run(s0, run);
            && Enabled(s, Writing(c, Draw(text))) && var s1 := Stepped(s, Writing(c, Draw(text)));
            && Enabled(s1, Env(Wait(3000))) && var s2 := Stepped(s1, Env(Wait(3000)));
            && Enabled(s2, Writing(c, TryLock(Acked))) && var s3 := Stepped(s2, Writing(c, TryLock(Acked)));
            && Enabled(s3, Env(Wait(lag))) && var s4 := Stepped(s3, Env(Wait(lag)));
            && Enabled(s4, Writing(c, Delete(Acked))) && var s5 := Stepped(s4, Writing(c, Delete(Acked)));
            && CountKey !in s5.store.entries && s5.h.invalidated == s.h.invalidated + {s.At(c).version}
  {
    LeasesAreShort(s0, run);
    OutwaitsLease(Run(s0, run), c, text, lag);
  }

  lemma OutwaitsLease(s: State, c: Client, text: string, lag: nat)
    requires LeaseShort(s) && s.At(c).Invalidating? && text !in s.drawn && lag < 1000
    ensures var s1 := Stepped(s, Writing(c, Draw(text)));
            var s2 := Stepped(s1, Env(Wait(3000)));
            && Enabled(s2, Writing(c, TryLock(Acked))) && var s3 := Stepped(s2, Writing(c, TryLock(Acked)));
            && var s4 := Stepped(s3, Env(Wait(lag)));
            && Enabled(s4, Writing(c, Delete(Acked))) && var s5 := Stepped(s4, Writing(c, Delete(Acked)));
            && CountKey !in s5.store.entries && s5.h.invalidated == s.h.invalidated + {s.At(c).version}
  {
    var s1 := Stepped(s, Writing(c, Draw(text)));
    var s2 := Stepped(s1, Env(Wait(3000)));
    WaitedForLock(s, c, text, s2);
    LockThenDelete(s2, c, lag);
  }

  lemma WaitedForLock(s: State, c: Client, text: string, s2: State)
    requires LeaseShort(s) && s.At(c).Invalidating? && text !in s.drawn
    requires s2 == Stepped(Stepped(s, Writing(c, Draw(text))), Env(Wait(3000)))
    ensures s2.At(c).Locking? && s2.At(c).version == s.At(c).version && s2.Now() + 1000 <= s2.At(c).limit
    ensures s2.store.Free(CountLockKey) && s2.h == s.h
  {
  }

  lemma LockThenDelete(s: State, c: Client, lag: nat)
    requires s.At(c).Locking? && s.Now() + 1000 <= s.At(c).limit && s.store.Free(CountLockKey) && lag < 1000
    ensures Enabled(s, Writing(c, TryLock(Acked)))
    ensures var s3 := Stepped(s, Writing(c, TryLock(Acked)));
            var s4 := Stepped(s3, Env(Wait(lag)));
            && Enabled(s4, Writing(c, Delete(Acked))) && var s5 := Stepped(s4, Writing(c, Delete(Acked)));
            && CountKey !in s5.store.entries && s5.h.invalidated == s.h.invalidated + {s.At(c).version}
  {
  }

  /** Two clients never both hold a lease that has not run out. */
  lemma LeasesAreExclusive(s0: State, run: seq<Step>, c: Client, d: Client)
    requires Initial(s0) && Feasible(s0, run)
    requires Holds(Run(s0, run), c) && Holds(Run(s0, run), d)
    ensures c == d
  {
    var s := Run(s0, run);
    InitialSound(s0);
    RunKeeps(s0, run);
    assert TokenOk(s, c, s.At(c)) && LeaseOk(s, s.At(c)) && TokenOk(s, d, s.At(d)) && LeaseOk(s, s.At(d));
  }

  /** A step that takes the lock. */
  predicate TakesLock(s: State, a: Step) {
    && Enabled(s, a) && s.store.Free(CountLockKey)
    && ((a.Counting? && a.n == CountTryLock(Acked)) || (a.Writing? && a.w == TryLock(Acked)))
  }

  /** The lock is taken only when no one, fill or invalidation, has time left on a lease; from then on its taker does. */
  lemma LockGoesToOne(s0: State, run: seq<Step>, a: Step)
    requires Initial(s0) && Feasible(s0, run) && TakesLock(Run(s0, run), a)
    ensures forall c: Client :: !Holds(Run(s0, run), c)
    ensures forall c: Client :: Holds(Stepped(Run(s0, run), a), c) <==> Actor(a) == Some(c)
  {
    var s := Run(s0, run);
    InitialSound(s0);
    RunKeeps(s0, run);
    FreeLockNoLease(s);
    forall c: Client ensures Holds(Stepped(s, a), c) <==> Actor(a) == Some(c) {
      if Actor(a) == Some(c) {
        TakerHolds(s, a);
      } else {
        OthersHoldNothing(s, a, c);
      }
    }
  }

  lemma OthersHoldNothing(s: State, a: Step, c: Client)
    requires TakesLock(s, a) && Actor(a) != Some(c) && !Holds(s, c)
    ensures !Holds(Stepped(s, a), c)
  {
    ClockStands(s, a);
    OthersStand(s, a, c);
  }

  lemma TakerHolds(s: State, a: Step)
    requires TakesLock(s, a)
    ensures Holds(Stepped(s, a), Actor(a).value)
  {
  }

  predicate ReleasesLock(a: Step) {
    (a.Counting? && a.n.CountRelease?) || (a.Writing? && a.w.Release?)
  }

  lemma LeaseSurvives(s: State, c: Client, a: Step)
    requires Sound(s) && Enabled(s, a) && Holds(s, c) && Actor(a) != Some(c) && !a.Env?
    ensures Stepped(s, a).store.Get(CountLockKey) == Some(TokenValue(LeaseOf(s.At(c)).value.token))
  {
    StepKeeps(s, a);
    OthersStand(s, a, c);
    var s' := Stepped(s, a);
    ClockStands(s, a);
    assert LeaseOk(s', s'.At(c));
  }

  lemma ClockStands(s: State, a: Step)
    requires Enabled(s, a) && !a.Env?
    ensures Stepped(s, a).Now() == s.Now()
  {
    match a
    case Getting(d, g) => GetLocal(s, d, g);
    case Listing(d, l) => ListLocal(s, d, l);
    case Counting(d, n) => CountLocal(s, d, n);
    case Writing(d, w) => WriteMovesOne(s, d, w);
  }

  /** Giving back a lock whose lease ran out and which another client has taken since leaves the new owner's lock. */
  lemma LateReleaseHarmless(s0: State, run: seq<Step>, c: Client, a: Step)
    requires Initial(s0) && Feasible(s0, run) && Enabled(Run(s0, run), a)
    requires Holds(Run(s0, run), c) && ReleasesLock(a) && Actor(a) != Some(c)
    ensures var s := Run(s0, run);
            Stepped(s, a).store.Get(CountLockKey) == Some(TokenValue(LeaseOf(s.At(c)).value.token))
  {
    InitialSound(s0);
    RunKeeps(s0, run);
    LeaseSurvives(Run(s0, run), c, a);
  }

  /** The owner's own release, while its lease lasts, frees the lock. */
  lemma OwnReleaseFrees(s0: State, run: seq<Step>, c: Client, o: Outcome)
    requires Initial(s0) && Feasible(s0, run) && o.Effective() && Holds(Run(s0, run), c)
    requires Run(s0, run).At(c).CountReleasing? || Run(s0, run).At(c).Releasing?
    ensures var s := Run(s0, run);
            var a := if s.At(c).Releasing? then Writing(c, Release(o)) else Counting(c, CountRelease(o));
            Enabled(s, a) && Stepped(s, a).store.Free(CountLockKey)
  {
    InitialSound(s0);
    RunKeeps(s0, run);
    assert LeaseOk(Run(s0, run), Run(s0, run).At(c));
  }

  // ----- GetByID -----

  /** Every update or deletion of task `id` has evicted its key. */
  ghost predicate EvictionsSettled(s: State, id: int) {
    forall w :: Changes(s, w, id) ==>
                  w !in s.h.evictLost && forall c :: c in s.procs ==> s.procs[c] != Evicting(w)
  }

  /** Some update or deletion of the cached task is newer than the row the cache shows. */
  ghost predicate Lags(s: State, id: int) {
    TaskKey(id) in s.origin && exists w: nat :: Changes(s, w, id) && w > s.origin[TaskKey(id)].snap.version
  }

  /** The fill read before some write of the task and stored after that write's eviction. */
  ghost predicate Overtaken(s: State, id: int) {
    TaskKey(id) in s.origin && s.origin[TaskKey(id)].missed != {}
  }

  lemma OvertakenIsChange(s: State, id: int, v: nat, w: nat)
    requires TimelineOk(s) && UpTo(s.h.evicted, |s.log|) && w in Missed(s, id, v)
    requires v < |s.db| && Lookup(s.db[v], id).Some?
    ensures Changes(s, w, id) && w > v
  {
    RowsStay(s, id, v, w - 1);
    assert Allowed(s.db[w - 1], s.log[w - 1]);
  }

  /** The eviction of write `w` is lost or still ahead of its client. */
  ghost predicate EvictionOpen(s: State, w: nat) {
    w in s.h.evictLost || exists c :: c in s.procs && s.procs[c] == Evicting(w)
  }

  /** Whatever is lost or pending, each update or deletion newer than the cached row is one whose eviction the row's
      fill overtook, was lost, or is still to come; and only such writes are recorded as overtaken. */
  lemma NewerWritesAccounted(s0: State, run: seq<Step>, id: int, w: nat)
    requires Initial(s0) && Feasible(s0, run) && Run(s0, run).store.Get(TaskKey(id)).Some?
    ensures var s := Run(s0, run);
            && TaskKey(id) in s.origin
            && var from := s.origin[TaskKey(id)];
            && (Changes(s, w, id) && w > from.snap.version ==> w in from.missed || EvictionOpen(s, w))
            && (w in from.missed ==> Changes(s, w, id) && w > from.snap.version)
  {
    var s, k := Run(s0, run), TaskKey(id);
    InitialSound(s0);
    RunKeeps(s0, run);
    assert EntryOk(s, k) && TaskEntryOk(s, k);
    if w in s.origin[k].missed {
      OvertakenIsChange(s, id, s.origin[k].snap.version, w);
    }
    if Changes(s, w, id) {
      assert Accounted(s, w);
    }
  }

  lemma TaskLags(s: State, id: int)
    requires Sound(s) && s.store.Get(TaskKey(id)).Some? && EvictionsSettled(s, id)
    ensures Lags(s, id) <==> Overtaken(s, id)
    ensures !Lags(s, id) ==> Lookup(s.Latest(), id).Some?
                             && s.store.Get(TaskKey(id)) == Some(TaskValue(Lookup(s.Latest(), id).value))
  {
    var k := TaskKey(id);
    assert EntryOk(s, k) && TaskEntryOk(s, k);
    var v := s.origin[k].snap.version;
    forall w | Changes(s, w, id) ensures w in s.h.evicted {
      assert Accounted(s, w);
    }
    if Lags(s, id) {
      var w: nat :| Changes(s, w, id) && w > v;
      assert w in Missed(s, id, v);
    } else {
      RowStands(s, id, v, |s.log|);
    }
    if Overtaken(s, id) {
      var w :| w in s.origin[k].missed;
      OvertakenIsChange(s, id, v, w);
    }
  }

  /** The exact guarantee of a task key when nothing is pending: the cached row is behind some write of its task if and
      only if its fill read before that write and stored after that write's eviction; otherwise it is the live row. */
  lemma CachedTaskLagsIffOvertaken(s0: State, run: seq<Step>, id: int)
    requires Initial(s0) && Feasible(s0, run)
    requires Run(s0, run).store.Get(TaskKey(id)).Some? && EvictionsSettled(Run(s0, run), id)
    ensures var s := Run(s0, run);
            && (Lags(s, id) <==> Overtaken(s, id))
            && (!Lags(s, id) ==> Lookup(s.Latest(), id).Some?
                                 && s.store.Get(TaskKey(id)) == Some(TaskValue(Lookup(s.Latest(), id).value)))
  {
    InitialSound(s0);
    RunKeeps(s0, run);
    TaskLags(Run(s0, run), id);
  }
}
