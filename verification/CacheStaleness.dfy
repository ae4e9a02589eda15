/** How old a served value can be: each value in the cache is traced to the step of the run that read it and the step
    that stored it, whatever becomes of the invalidations. */
module CacheStaleness {
  import opened Prelude
  import opened Redis
  import opened CacheProtocol
  import opened CacheHistory
  import opened CacheProvenance
  import opened CacheTheorems

  // ----- the steps of a fill -----

  datatype Holding = Holding(k: Key, v: Value, snap: Snapshot)

  /** What a client that has read is about to store, and under which key. */
  function Held(p: Proc): Option<Holding> {
    match p
    case GetStoring(id, task, snap) => Some(Holding(TaskKey(id), TaskValue(task), snap))
    case ListStoring(req, _, generation, page, snap) => Some(Holding(PageKey(generation, req), PageValue(page), snap))
    case CountSetting(_, _, _, result) => Some(Holding(CountKey, CountValue(result.n), result.snap))
    case _ => None
  }

  /** A statement that reads the database, answered. */
  predicate IsRead(a: Step) {
    match a
    case Getting(_, g) => g == GetRead(true)
    case Listing(_, l) => l == ListRead(true)
    case Counting(_, n) => n == CountRead(true)
    case _ => false
  }

  /** A command that stores what was read, and arrives. */
  predicate IsStore(a: Step) {
    match a
    case Getting(_, g) => g.GetStore? && g.o.Effective()
    case Listing(_, l) => l.ListStore? && l.o.Effective()
    case Counting(_, n) => n.CountSet? && n.o.Effective()
    case _ => false
  }

  /** Client `c` reads the answer `v` for `k`. */
  ghost predicate ReadsFor(s: State, a: Step, c: Client, k: Key, v: Value) {
    Actor(a) == Some(c) && IsRead(a) && Shows(s.Latest(), k, v)
  }

  ghost predicate StoresFor(s: State, a: Step, c: Client, k: Key, v: Value) {
    && Actor(a) == Some(c) && IsStore(a)
    && Held(s.At(c)).Some? && Held(s.At(c)).value.k == k && Held(s.At(c)).value.v == v
  }

  // ----- what one step does to the entries and to what clients hold -----

  ghost predicate StoresKey(s: State, a: Step, k: Key) {
    && Actor(a).Some? && IsStore(a)
    && Held(s.At(Actor(a).value)).Some? && Held(s.At(Actor(a).value)).value.k == k
  }

  /** Each cached value was there before, or step `a` has just stored it for one lifetime. */
  ghost predicate EntriesFrom(s: State, a: Step, s': State) {
    forall k :: k in s'.store.entries && IsData(k) ==>
                  if StoresKey(s, a, k) then JustStored(s, a, s', k) else Untouched(s, s', k)
  }

  ghost predicate Untouched(s: State, s': State, k: Key) {
    && k in s.store.entries && k in s'.store.entries && s'.store.entries[k] == s.store.entries[k]
    && (k in s.origin ==> k in s'.origin && s'.origin[k] == s.origin[k])
  }

  ghost predicate JustStored(s: State, a: Step, s': State, k: Key)
    requires k in s'.store.entries
  {
    && Actor(a).Some? && StoresFor(s, a, Actor(a).value, k, s'.store.entries[k].value)
    && s'.store.entries[k].expires == s.Now() + s.cfg.ttl
    && k in s'.origin && s'.origin[k].snap == Held(s.At(Actor(a).value)).value.snap
    && (k.TaskKey? ==> s'.origin[k].missed == Missed(s, k.id, s'.origin[k].snap.version))
  }

  lemma GetEntries(s: State, c: Client, g: GetStep)
    requires GetEnabled(s, c, g)
    ensures EntriesFrom(s, Getting(c, g), GetStepped(s, c, g))
  {
  }

  lemma ListStoreEntries(s: State, c: Client, o: Outcome)
    requires ListEnabled(s, c, ListStore(o)) && o.Effective()
    ensures EntriesFrom(s, Listing(c, ListStore(o)), ListStepped(s, c, ListStore(o)))
  {
  }

  lemma ListEntries(s: State, c: Client, l: ListStep)
    requires ListEnabled(s, c, l)
    ensures EntriesFrom(s, Listing(c, l), ListStepped(s, c, l))
  {
    if l.ListStore? && l.o.Effective() {
      ListStoreEntries(s, c, l.o);
    } else {
      ListStoresNothing(s, c, l);
    }
  }

  lemma CountSetEntries(s: State, c: Client, o: Outcome)
    requires CountEnabled(s, c, CountSet(o)) && o.Effective()
    ensures EntriesFrom(s, Counting(c, CountSet(o)), CountStepped(s, c, CountSet(o)))
  {
  }

  lemma CountEntries(s: State, c: Client, n: CountStep)
    requires CountEnabled(s, c, n)
    ensures EntriesFrom(s, Counting(c, n), CountStepped(s, c, n))
  {
    if n.CountSet? && n.o.Effective() {
      CountSetEntries(s, c, n.o);
    } else {
      CountStoresNothing(s, c, n);
    }
  }

  lemma StepEntries(s: State, a: Step)
    requires Enabled(s, a)
    ensures EntriesFrom(s, a, Stepped(s, a))
  {
    match a
    case Env(_) =>
    case Getting(c, g) => GetEntries(s, c, g);
    case Listing(c, l) => ListEntries(s, c, l);
    case Counting(c, n) => CountEntries(s, c, n);
    case Writing(c, w) => WriteStores(s, c, w);
  }

  /** What client `c` holds after its own step it has just read. */
  ghost predicate HeldFrom(s: State, a: Step, s': State, c: Client) {
    var held := Held(s'.At(c));
    held.Some? ==> ReadsFor(s, a, c, held.value.k, held.value.v) && held.value.snap == Present(s)
  }

  lemma GetHeld(s: State, c: Client, g: GetStep)
    requires GetEnabled(s, c, g)
    ensures HeldFrom(s, Getting(c, g), GetStepped(s, c, g), c)
  {
  }

  lemma ListHeld(s: State, c: Client, l: ListStep)
    requires ListEnabled(s, c, l)
    ensures HeldFrom(s, Listing(c, l), ListStepped(s, c, l), c)
  {
  }

  lemma CountHeld(s: State, c: Client, n: CountStep)
    requires CountEnabled(s, c, n)
    ensures HeldFrom(s, Counting(c, n), CountStepped(s, c, n), c)
  {
  }

  lemma StepHeld(s: State, a: Step, c: Client)
    requires Enabled(s, a) && Actor(a) == Some(c)
    ensures HeldFrom(s, a, Stepped(s, a), c)
  {
    match a
    case Getting(d, g) => GetHeld(s, d, g);
    case Listing(d, l) => ListHeld(s, d, l);
    case Counting(d, n) => CountHeld(s, d, n);
    case Writing(d, w) => WriteStaysWrite(s, d, w);
  }

  // ----- along a run -----

  /** The state after the first `i` steps. */
  ghost function StateAt(s: State, run: seq<Step>, i: nat): State
    requires Feasible(s, run) && i <= |run|
    decreases i
  {
    if i == 0 then s else StateAt(Stepped(s, run[0]), run[1..], i - 1)
  }

  lemma {:induction false} StateAtEnd(s: State, run: seq<Step>)
    requires Feasible(s, run)
    ensures StateAt(s, run, |run|) == Run(s, run)
    decreases |run|
  {
    if run != [] {
      StateAtEnd(Stepped(s, run[0]), run[1..]);
    }
  }

  lemma {:induction false} StateAtNext(s: State, run: seq<Step>, i: nat)
    requires Feasible(s, run) && i < |run|
    ensures Enabled(StateAt(s, run, i), run[i])
    ensures StateAt(s, run, i + 1) == Stepped(StateAt(s, run, i), run[i])
    decreases i
  {
    if i > 0 {
      StateAtNext(Stepped(s, run[0]), run[1..], i - 1);
    }
  }

  lemma {:induction false} ConfigAt(s: State, run: seq<Step>, i: nat)
    requires Feasible(s, run) && i <= |run|
    ensures StateAt(s, run, i).cfg == s.cfg
    decreases i
  {
    if i > 0 {
      ConfigStands(s, run[0]);
      ConfigAt(Stepped(s, run[0]), run[1..], i - 1);
    }
  }

  /** Step `j` is client `c`'s read of `v` for `k`, and the client has done nothing since, up to step `i`. */
  ghost predicate ReadAt(s: State, run: seq<Step>, c: Client, k: Key, v: Value, j: nat, i: nat)
    requires Feasible(s, run)
  {
    && j < i <= |run| && ReadsFor(StateAt(s, run, j), run[j], c, k, v)
    && forall m :: j < m < i ==> Actor(run[m]) != Some(c)
  }

  /** Step `j` reads `v` for `k`, and step `i`, the same client's next, stores it. */
  ghost predicate FilledBy(s: State, run: seq<Step>, c: Client, k: Key, v: Value, j: nat, i: nat)
    requires Feasible(s, run)
  {
    ReadAt(s, run, c, k, v, j, i) && i < |run| && StoresFor(StateAt(s, run, i), run[i], c, k, v)
  }

  ghost predicate HoldsFromRead(s: State, run: seq<Step>, n: nat, c: Client)
    requires Feasible(s, run) && n <= |run|
  {
    var held := Held(StateAt(s, run, n).At(c));
    held.Some? ==> exists j: nat :: ReadAt(s, run, c, held.value.k, held.value.v, j, n)
                                    && held.value.snap == Present(StateAt(s, run, j))
  }

  /** What the history notes about an entry: the state its step `j` read, and the evictions over by its step `i`. */
  ghost predicate Noted(s: State, run: seq<Step>, n: nat, k: Key, j: nat, i: nat)
    requires Feasible(s, run) && n <= |run| && j < i <= |run|
  {
    var origin := StateAt(s, run, n).origin;
    && k in origin && origin[k].snap == Present(StateAt(s, run, j))
    && (k.TaskKey? ==> origin[k].missed == Missed(StateAt(s, run, i), k.id, StateAt(s, run, j).Version()))
  }

  /** Step `i` is the last of the first `n` that stores `k`. */
  ghost predicate LastStore(s: State, run: seq<Step>, k: Key, i: nat, n: nat)
    requires Feasible(s, run) && n <= |run|
  {
    forall x: nat :: i < x < n ==> !StoresKey(StateAt(s, run, x), run[x], k)
  }

  /** The entry of `k` after `n` steps was read and stored by two of them, and expires one lifetime after the second. */
  ghost predicate EntryFromFill(s: State, run: seq<Step>, n: nat, k: Key)
    requires Feasible(s, run) && n <= |run|
  {
    var entries := StateAt(s, run, n).store.entries;
    k in entries && IsData(k) ==>
      exists c: Client, j: nat, i: nat ::
        && FilledBy(s, run, c, k, entries[k].value, j, i) && i < n && LastStore(s, run, k, i, n)
        && entries[k].expires == StateAt(s, run, i).Now() + s.cfg.ttl && Noted(s, run, n, k, j, i)
  }

  lemma HoldsNext(s: State, run: seq<Step>, n: nat, c: Client)
    requires Feasible(s, run) && n < |run| && HoldsFromRead(s, run, n, c)
    ensures HoldsFromRead(s, run, n + 1, c)
  {
    hide StateAt, Feasible, Held, ReadsFor, Present;
    var s1, a := StateAt(s, run, n), run[n];
    StateAtNext(s, run, n);
    var held := Held(StateAt(s, run, n + 1).At(c));
    if held.Some? {
      if Actor(a) == Some(c) {
        StepHeld(s1, a, c);
        assert ReadAt(s, run, c, held.value.k, held.value.v, n, n + 1);
      } else {
        OthersStand(s1, a, c);
        var j: nat :| ReadAt(s, run, c, held.value.k, held.value.v, j, n) && held.value.snap == Present(StateAt(s, run, j));
        assert ReadAt(s, run, c, held.value.k, held.value.v, j, n + 1);
      }
    }
  }

  lemma EntryNext(s: State, run: seq<Step>, n: nat, k: Key)
    requires Feasible(s, run) && n < |run| && EntryFromFill(s, run, n, k)
    requires forall c :: HoldsFromRead(s, run, n, c)
    ensures EntryFromFill(s, run, n + 1, k)
  {
    var s1, a := StateAt(s, run, n), run[n];
    StateAtNext(s, run, n);
    StepEntries(s1, a);
    var s2 := StateAt(s, run, n + 1);
    if k in s2.store.entries && IsData(k) {
      if StoresKey(s1, a, k) {
        EntryFilled(s, run, n, k);
      } else {
        EntryStays(s, run, n, k);
      }
    }
  }

  lemma EntryFilled(s: State, run: seq<Step>, n: nat, k: Key)
    requires Feasible(s, run) && n < |run| && Actor(run[n]).Some? && HoldsFromRead(s, run, n, Actor(run[n]).value)
    requires k in StateAt(s, run, n + 1).store.entries
    requires JustStored(StateAt(s, run, n), run[n], StateAt(s, run, n + 1), k)
    ensures EntryFromFill(s, run, n + 1, k)
  {
    hide Missed;
    var s1, s2, c := StateAt(s, run, n), StateAt(s, run, n + 1), Actor(run[n]).value;
    var held, v := Held(s1.At(c)).value, s2.store.entries[k].value;
    var j: nat :| ReadAt(s, run, c, held.k, held.v, j, n) && held.snap == Present(StateAt(s, run, j));
    ConfigAt(s, run, n);
    assert FilledBy(s, run, c, k, v, j, n) && Noted(s, run, n + 1, k, j, n) && LastStore(s, run, k, n, n + 1);
  }

  lemma EntryStays(s: State, run: seq<Step>, n: nat, k: Key)
    requires Feasible(s, run) && n < |run| && EntryFromFill(s, run, n, k) && IsData(k)
    requires Untouched(StateAt(s, run, n), StateAt(s, run, n + 1), k) && !StoresKey(StateAt(s, run, n), run[n], k)
    ensures EntryFromFill(s, run, n + 1, k)
  {
    hide Missed, StateAt, ReadsFor, StoresFor, StoresKey;
    var v := StateAt(s, run, n).store.entries[k].value;
    var c: Client, j: nat, i: nat :|
      && FilledBy(s, run, c, k, v, j, i) && i < n && LastStore(s, run, k, i, n)
      && StateAt(s, run, n).store.entries[k].expires == StateAt(s, run, i).Now() + s.cfg.ttl && Noted(s, run, n, k, j, i);
    assert Noted(s, run, n + 1, k, j, i) && LastStore(s, run, k, i, n + 1);
  }

  lemma {:induction false} Traced(s: State, run: seq<Step>, n: nat)
    requires Initial(s) && Feasible(s, run) && n <= |run|
    ensures forall c :: HoldsFromRead(s, run, n, c)
    ensures forall k :: EntryFromFill(s, run, n, k)
    decreases n
  {
    if n > 0 {
      Traced(s, run, n - 1);
      forall c ensures HoldsFromRead(s, run, n, c) { HoldsNext(s, run, n - 1, c); }
      forall k ensures EntryFromFill(s, run, n, k) { EntryNext(s, run, n - 1, k); }
    }
  }

  /** Whatever becomes of the invalidations, a value served from the cache now was read by one step of the run, as the
      answer of the database at that moment, and stored by the same client's next step, the last that stored anything
      under that key, less than one cache lifetime ago: its age is below one lifetime plus the client's own delay between
      the two. */
  lemma StalenessBound(s0: State, run: seq<Step>, k: Key)
    requires Initial(s0) && Feasible(s0, run) && IsData(k) && Run(s0, run).store.Get(k).Some?
    ensures exists c: Client, j: nat, i: nat ::
              && FilledBy(s0, run, c, k, Run(s0, run).store.Get(k).value, j, i) && LastStore(s0, run, k, i, |run|)
              && Run(s0, run).Now() < StateAt(s0, run, i).Now() + s0.cfg.ttl
  {
    Traced(s0, run, |run|);
    StateAtEnd(s0, run);
    assert EntryFromFill(s0, run, |run|, k);
  }
}
