/** The count lock: an unexpired lease is exclusive, and only its owner can give it up. */
module CountLock {
  import opened Prelude
  import opened Redis
  import opened CacheProtocol
  import opened CacheHistory

  /** The random token a client is using for the lock. */
  function LockToken(p: Proc): Option<string> {
    if LeaseOf(p).Some? then Some(LeaseOf(p).value.token)
    else match p
      case CountLocking(_, _, token) => Some(token)
      case Locking(_, _, token) => Some(token)
      case _ => None
  }

  /** A client uses only tokens it drew itself. */
  ghost predicate TokenOk(s: State, c: Client, p: Proc) {
    LockToken(p).Some? ==> LockToken(p).value in s.drawn && s.drawn[LockToken(p).value] == c
  }

  /** A lease that has not run out is what the lock key holds. */
  ghost predicate LeaseOk(s: State, p: Proc) {
    LeaseOf(p).Some? && s.Now() < LeaseOf(p).value.until ==>
      && CountLockKey in s.store.entries
      && s.store.entries[CountLockKey] == Entry(TokenValue(LeaseOf(p).value.token), LeaseOf(p).value.until)
  }

  ghost predicate LockOk(s: State) {
    forall c :: c in s.procs ==> TokenOk(s, c, s.procs[c]) && LeaseOk(s, s.procs[c])
  }

  /** Whether client `c` holds a lease that has not run out. */
  predicate Holds(s: State, c: Client) {
    LeaseOf(s.At(c)).Some? && s.Now() < LeaseOf(s.At(c)).value.until
  }

  // ----- preservation -----

  /** Every live lease other than `c`'s keeps its lock entry. */
  ghost predicate LockRespected(s: State, s': State, c: Client) {
    && (forall t :: t in s.drawn ==> t in s'.drawn && s'.drawn[t] == s.drawn[t])
    && (forall d :: d in s.procs && d != c && Holds(s, d) ==>
          && CountLockKey in s'.store.entries && CountLockKey in s.store.entries
          && s'.store.entries[CountLockKey] == s.store.entries[CountLockKey])
  }

  lemma LockStands(s: State, s': State, c: Client)
    requires LockOk(s) && OnlyClient(s, s', c) && LockRespected(s, s', c)
    requires TokenOk(s', c, s'.At(c)) && LeaseOk(s', s'.At(c))
    ensures LockOk(s')
  {
    forall d | d in s'.procs ensures TokenOk(s', d, s'.procs[d]) && LeaseOk(s', s'.procs[d]) {
      if d != c {
        assert d in s.procs && s'.procs[d] == s.procs[d] == s.At(d);
        assert TokenOk(s, d, s.procs[d]) && LeaseOk(s, s.procs[d]);
      }
    }
  }

  /** While the lock is free no one has time left on a lease. */
  lemma FreeLockNoLease(s: State)
    requires LockOk(s) && s.store.Free(CountLockKey)
    ensures forall c :: !Holds(s, c)
  {
    forall c ensures !Holds(s, c) {
      if c in s.procs {
        assert LeaseOk(s, s.procs[c]);
      }
    }
  }

  /** Taking the lock only when it is free, and releasing it only with one's own token, disturbs no one else. */
  lemma TryRespects(s: State, c: Client, token: string, o: Outcome, s': State)
    requires LockOk(s) && s'.store == LockTried(s, token, o).store && s'.drawn == s.drawn
    ensures LockRespected(s, s', c)
  {
    forall d | d in s.procs && d != c && Holds(s, d)
      ensures CountLockKey in s'.store.entries && CountLockKey in s.store.entries
      ensures s'.store.entries[CountLockKey] == s.store.entries[CountLockKey]
    {
      assert LeaseOk(s, s.procs[d]);
    }
  }

  lemma ReleaseRespects(s: State, c: Client, token: string, o: Outcome, s': State)
    requires LockOk(s) && s'.store == LockReleased(s, token, o).store && s'.drawn == s.drawn
    requires token in s.drawn && s.drawn[token] == c
    ensures LockRespected(s, s', c)
  {
    forall d | d in s.procs && d != c && Holds(s, d)
      ensures CountLockKey in s'.store.entries && CountLockKey in s.store.entries
      ensures s'.store.entries[CountLockKey] == s.store.entries[CountLockKey]
    {
      assert TokenOk(s, d, s.procs[d]) && LeaseOk(s, s.procs[d]);
    }
  }

  /** Steps that leave the lock key and the drawn tokens alone, apart from drawing new ones. */
  ghost predicate LockUntouched(s: State, s': State) {
    && (CountLockKey in s'.store.entries <==> CountLockKey in s.store.entries)
    && (CountLockKey in s.store.entries ==> s'.store.entries[CountLockKey] == s.store.entries[CountLockKey])
    && (forall t :: t in s.drawn ==> t in s'.drawn && s'.drawn[t] == s.drawn[t])
  }

  lemma UntouchedRespects(s: State, s': State, c: Client)
    requires LockOk(s) && LockUntouched(s, s')
    ensures LockRespected(s, s', c)
  {
    forall d | d in s.procs && d != c && Holds(s, d)
      ensures CountLockKey in s'.store.entries && CountLockKey in s.store.entries
      ensures s'.store.entries[CountLockKey] == s.store.entries[CountLockKey]
    {
      assert LeaseOk(s, s.procs[d]);
    }
  }

  lemma GetLeavesLock(s: State, c: Client, g: GetStep)
    requires GetEnabled(s, c, g)
    ensures var s' := GetStepped(s, c, g); LockUntouched(s, s') && LockToken(s'.At(c)).None?
  {
  }

  lemma ListLeavesLock(s: State, c: Client, l: ListStep)
    requires ListEnabled(s, c, l)
    ensures var s' := ListStepped(s, c, l); LockUntouched(s, s') && LockToken(s'.At(c)).None?
  {
  }

  lemma CountLeavesLock(s: State, c: Client, n: CountStep)
    requires CountEnabled(s, c, n) && !n.CountTryLock? && !n.CountRelease?
    ensures LockUntouched(s, CountStepped(s, c, n))
  {
  }

  /** A client's own lease only ever passes from one point of its call to the next. */
  lemma CountKeepsLease(s: State, c: Client, n: CountStep)
    requires CountEnabled(s, c, n) && !n.CountTryLock? && !n.CountRelease? && LockUntouched(s, CountStepped(s, c, n))
    requires TokenOk(s, c, s.At(c)) && LeaseOk(s, s.At(c))
    ensures var s' := CountStepped(s, c, n); TokenOk(s', c, s'.At(c)) && LeaseOk(s', s'.At(c))
  {
    var s' := CountStepped(s, c, n);
    assert s'.Now() == s.Now();
    if !n.CountDraw? {
      assert LeaseOf(s'.At(c)) in {None, LeaseOf(s.At(c))};
    }
  }

  lemma CountTryKeepsLease(s: State, c: Client, o: Outcome)
    requires CountEnabled(s, c, CountTryLock(o)) && TokenOk(s, c, s.At(c))
    ensures var s' := CountStepped(s, c, CountTryLock(o));
            && s'.store == LockTried(s, s.At(c).token, o).store && s'.drawn == s.drawn
            && TokenOk(s', c, s'.At(c)) && LeaseOk(s', s'.At(c))
  {
  }

  lemma WriteLeavesLock(s: State, c: Client, w: WriteStep)
    requires WriteEnabled(s, c, w) && !w.TryLock? && !w.Release?
    ensures LockUntouched(s, WriteStepped(s, c, w))
  {
  }

  lemma WritePassesLease(s: State, c: Client, w: WriteStep)
    requires WriteEnabled(s, c, w) && !w.TryLock? && !w.Release? && !w.Draw?
    ensures var s' := WriteStepped(s, c, w);
            LeaseOf(s'.At(c)) in {None, LeaseOf(s.At(c))} && LockToken(s'.At(c)) in {None, LockToken(s.At(c))}
  {
  }

  lemma WriteKeepsLease(s: State, c: Client, w: WriteStep)
    requires WriteEnabled(s, c, w) && !w.TryLock? && !w.Release? && LockUntouched(s, WriteStepped(s, c, w))
    requires TokenOk(s, c, s.At(c)) && LeaseOk(s, s.At(c)) && OnlyClient(s, WriteStepped(s, c, w), c)
    ensures var s' := WriteStepped(s, c, w); TokenOk(s', c, s'.At(c)) && LeaseOk(s', s'.At(c))
  {
    if !w.Draw? {
      WritePassesLease(s, c, w);
    }
  }

  lemma TryKeepsLease(s: State, c: Client, o: Outcome)
    requires WriteEnabled(s, c, TryLock(o)) && TokenOk(s, c, s.At(c))
    ensures var s' := WriteStepped(s, c, TryLock(o));
            && s'.store == LockTried(s, s.At(c).token, o).store && s'.drawn == s.drawn
            && TokenOk(s', c, s'.At(c)) && LeaseOk(s', s'.At(c))
  {
  }

  lemma LockKeptByCounter(s: State, c: Client, n: CountStep)
    requires CountEnabled(s, c, n) && LockOk(s)
    ensures LockOk(CountStepped(s, c, n))
  {
    var s' := CountStepped(s, c, n);
    assert TokenOk(s, c, s.At(c)) && LeaseOk(s, s.At(c));
    CountLocal(s, c, n);
    if n.CountTryLock? {
      CountTryKeepsLease(s, c, n.o);
      TryRespects(s, c, s.At(c).token, n.o, s');
    } else if n.CountRelease? {
      ReleaseRespects(s, c, s.At(c).lease.token, n.o, s');
    } else {
      CountLeavesLock(s, c, n);
      CountKeepsLease(s, c, n);
      UntouchedRespects(s, s', c);
    }
    LockStands(s, s', c);
  }

  lemma LockKeptByWriter(s: State, c: Client, w: WriteStep)
    requires WriteEnabled(s, c, w) && LockOk(s)
    ensures LockOk(WriteStepped(s, c, w))
  {
    var s' := WriteStepped(s, c, w);
    assert TokenOk(s, c, s.At(c)) && LeaseOk(s, s.At(c));
    WriteMovesOne(s, c, w);
    if w.TryLock? {
      TryKeepsLease(s, c, w.o);
      TryRespects(s, c, s.At(c).token, w.o, s');
    } else if w.Release? {
      ReleaseRespects(s, c, s.At(c).lease.token, w.o, s');
    } else {
      WriteLeavesLock(s, c, w);
      WriteKeepsLease(s, c, w);
      UntouchedRespects(s, s', c);
    }
    LockStands(s, s', c);
  }

  lemma LockKept(s: State, a: Step)
    requires Enabled(s, a) && LockOk(s)
    ensures LockOk(Stepped(s, a))
  {
    var s' := Stepped(s, a);
    match a
    case Env(_) =>
      forall d | d in s'.procs ensures TokenOk(s', d, s'.procs[d]) && LeaseOk(s', s'.procs[d]) {
        assert TokenOk(s, d, s.procs[d]) && LeaseOk(s, s.procs[d]);
      }
    case Getting(c, g) =>
      GetLeavesLock(s, c, g); GetLocal(s, c, g); UntouchedRespects(s, s', c); LockStands(s, s', c);
    case Listing(c, l) =>
      ListLeavesLock(s, c, l); ListLocal(s, c, l); UntouchedRespects(s, s', c); LockStands(s, s', c);
    case Counting(c, n) => LockKeptByCounter(s, c, n);
    case Writing(c, w) => LockKeptByWriter(s, c, w);
  }
}
