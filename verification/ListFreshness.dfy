/** List pages: a generation token outlives no write that has retired it, so a page is never older than the writes
    whose retirement was over when the call began. */
module ListFreshness {
  import opened Prelude
  import opened TaskTable
  import opened Redis
  import opened CacheProtocol
  import opened CacheHistory
  import opened CacheProvenance

  /** Every version in `writes` is at most `v`. */
  ghost predicate UpTo(writes: set<nat>, v: nat) {
    forall w :: w in writes ==> w <= v
  }

  /** The generation in the cache was installed after every retired write had committed. */
  ghost predicate GenerationOk(s: State) {
    && (GenerationKey in s.store.entries ==>
          var v := s.store.entries[GenerationKey].value;
          v.TokenValue? && v.token in s.h.born && UpTo(s.h.retired, s.h.born[v.token]))
    && (forall t :: t in s.h.born ==> t in s.drawn && s.h.born[t] <= s.Version())
    && UpTo(s.h.retired, s.Version())
  }

  /** A page is no older than the generation it is stored under. */
  ghost predicate PagesOk(s: State) {
    forall k :: k in s.store.entries && k.PageKey? ==>
                  k in s.origin && k.generation in s.h.born && s.h.born[k.generation] <= s.origin[k].snap.version
  }

  ghost predicate ReaderOk(s: State, p: Proc) {
    match p
    case ListStarting(_, since) => since <= s.h.retired
    case ListLoading(_, since, g) => since <= s.h.retired && g in s.h.born && UpTo(since, s.h.born[g])
    case ListReading(_, since, under) => since <= s.h.retired && (under.Some? ==> under.value in s.h.born)
    case ListStoring(_, since, g, _, snap) =>
      g in s.h.born && s.h.born[g] <= snap.version && UpTo(since, snap.version)
    case ListDone(_, since, _, snap) => UpTo(since, snap.version)
    case _ => true
  }

  ghost predicate ReadersOk(s: State) {
    forall c :: c in s.procs ==> ReaderOk(s, s.procs[c])
  }

  ghost predicate ListOk(s: State) {
    GenerationOk(s) && PagesOk(s) && ReadersOk(s)
  }

  // ----- preservation -----

  /** Generations known before are known still, with the same birth. */
  ghost predicate BornGrows(s: State, s': State) {
    && s.h.retired <= s'.h.retired
    && forall t :: t in s.h.born ==> t in s'.h.born && s'.h.born[t] == s.h.born[t]
  }

  lemma ReadersStand(s: State, s': State, c: Client)
    requires ReadersOk(s) && BornGrows(s, s') && OnlyClient(s, s', c) && ReaderOk(s', s'.At(c))
    ensures ReadersOk(s')
  {
    forall d | d in s'.procs ensures ReaderOk(s', s'.procs[d]) {
      if d in s.procs && s'.procs[d] == s.procs[d] {
        assert ReaderOk(s, s.procs[d]);
      }
    }
  }

  lemma PagesStand(s: State, s': State)
    requires PagesOk(s) && BornGrows(s, s') && NothingStored(s, s')
    ensures PagesOk(s')
  {
    forall k | k in s'.store.entries && k.PageKey?
      ensures k in s'.origin && k.generation in s'.h.born && s'.h.born[k.generation] <= s'.origin[k].snap.version
    {
      assert IsData(k);
    }
  }

  /** Steps that leave the generation alone. */
  ghost predicate GenerationUntouched(s: State, s': State) {
    && s'.h.born == s.h.born && s'.h.retired == s.h.retired
    && s.drawn.Keys <= s'.drawn.Keys && s.Version() <= s'.Version()
    && (GenerationKey in s'.store.entries ==>
          GenerationKey in s.store.entries && s'.store.entries[GenerationKey] == s.store.entries[GenerationKey])
  }

  lemma GenerationStands(s: State, s': State)
    requires GenerationOk(s) && GenerationUntouched(s, s')
    ensures GenerationOk(s') && BornGrows(s, s')
  {
  }

  lemma InstalledGeneration(s: State, s': State, c: Client, text: string)
    requires GenerationOk(s) && text !in s.drawn && TimelineOk(s)
    requires s'.db == s.db && s'.drawn == s.drawn[text := c] && s'.h.born == s.h.born[text := s.Version()]
    requires GenerationKey in s'.store.entries && s'.store.entries[GenerationKey].value == TokenValue(text)
    requires s.h.retired <= s'.h.retired && UpTo(s'.h.retired, s.Version())
    ensures GenerationOk(s') && BornGrows(s, s')
  {
  }

  lemma GetLeavesLists(s: State, c: Client, g: GetStep)
    requires GetEnabled(s, c, g)
    ensures var s' := GetStepped(s, c, g);
            GenerationUntouched(s, s') && ReaderOk(s', s'.At(c))
  {
  }

  lemma GetKeepsPages(s: State, c: Client, g: GetStep)
    requires GetEnabled(s, c, g) && PagesOk(s)
    ensures PagesOk(GetStepped(s, c, g))
  {
  }

  lemma CountLeavesLists(s: State, s': State, c: Client)
    requires CountFrame(s, s', c)
    ensures GenerationUntouched(s, s') && ReaderOk(s', s'.At(c))
    ensures PagesOk(s) ==> PagesOk(s')
  {
  }

  lemma WriteLeavesLists(s: State, c: Client, w: WriteStep)
    requires WriteEnabled(s, c, w) && !w.Retire? && !w.Commit?
    ensures var s' := WriteStepped(s, c, w); GenerationUntouched(s, s') && ReaderOk(s', s'.At(c))
  {
    WriteStaysWrite(s, c, w);
  }

  lemma CommitLeavesLists(s: State, c: Client, write: Write, acked: bool)
    requires WriteEnabled(s, c, Commit(write, acked)) && TimelineOk(s)
    ensures var s' := WriteStepped(s, c, Commit(write, acked)); GenerationUntouched(s, s') && ReaderOk(s', s'.At(c))
  {
  }

  /** A retirement installs a fresh generation at the present version, which no write exceeds. */
  lemma RetireKeepsGeneration(s: State, c: Client, text: string, o: Outcome)
    requires WriteEnabled(s, c, Retire(text, o)) && TimelineOk(s) && OwnersOk(s) && GenerationOk(s)
    ensures var s' := WriteStepped(s, c, Retire(text, o));
            GenerationOk(s') && BornGrows(s, s') && ReaderOk(s', s'.At(c))
            && (o.Effective() ==> s.At(c).version in s'.h.retired && s'.Token() in {None, Some(text)})
  {
    var s' := WriteStepped(s, c, Retire(text, o));
    assert PendingVersion(s.At(c)) == Some(s.At(c).version);
    if o.Effective() {
      InstalledGeneration(s, s', c, text);
    } else {
      GenerationStands(s, s');
    }
  }

  lemma TokenKeepsGeneration(s: State, c: Client, text: string, o: Outcome)
    requires ListEnabled(s, c, ListToken(text, o)) && TimelineOk(s) && GenerationOk(s) && ReaderOk(s, s.At(c))
    ensures var s' := ListStepped(s, c, ListToken(text, o));
            GenerationOk(s') && BornGrows(s, s') && ReaderOk(s', s'.At(c))
  {
    var s' := ListStepped(s, c, ListToken(text, o));
    if o.Effective() && s.store.Free(GenerationKey) {
      InstalledGeneration(s, s', c, text);
    } else {
      GenerationStands(s, s');
    }
  }

  lemma ListLeavesGeneration(s: State, c: Client, l: ListStep)
    requires ListEnabled(s, c, l) && !l.ListToken?
    ensures GenerationUntouched(s, ListStepped(s, c, l))
  {
  }

  lemma ListKeepsReader(s: State, c: Client, l: ListStep)
    requires ListEnabled(s, c, l) && !l.ListToken? && GenerationOk(s) && ReaderOk(s, s.At(c)) && TimelineOk(s)
    requires l.ListLoad? ==> PagesOk(s)
    ensures var s' := ListStepped(s, c, l); ReaderOk(s', s'.At(c))
  {
  }

  lemma ListKeepsPages(s: State, c: Client, l: ListStep)
    requires ListEnabled(s, c, l) && PagesOk(s) && ReaderOk(s, s.At(c)) && BornGrows(s, ListStepped(s, c, l))
    ensures PagesOk(ListStepped(s, c, l))
  {
    hide ListAnswer;
  }

  lemma ListKeptByWriter(s: State, c: Client, w: WriteStep)
    requires WriteEnabled(s, c, w) && TimelineOk(s) && OwnersOk(s) && ListOk(s)
    ensures ListOk(WriteStepped(s, c, w))
  {
    var s' := WriteStepped(s, c, w);
    if w.Retire? {
      RetireKeepsGeneration(s, c, w.text, w.o);
    } else {
      if w.Commit? {
        CommitLeavesLists(s, c, w.write, w.acked);
      } else {
        WriteLeavesLists(s, c, w);
      }
      GenerationStands(s, s');
    }
    WriteStores(s, c, w);
    PagesStand(s, s');
    WriteMovesOne(s, c, w);
    ReadersStand(s, s', c);
  }

  lemma ListKeptByEnv(s: State, e: EnvStep)
    requires EnvEnabled(s, e) && ListOk(s)
    ensures ListOk(EnvStepped(s, e))
  {
    var s' := EnvStepped(s, e);
    GenerationStands(s, s');
    PagesStand(s, s');
    forall c | c in s'.procs ensures ReaderOk(s', s'.procs[c]) { assert ReaderOk(s, s.procs[c]); }
  }

  lemma ListKeptByGetter(s: State, c: Client, g: GetStep)
    requires GetEnabled(s, c, g) && ListOk(s)
    ensures ListOk(GetStepped(s, c, g))
  {
    var s' := GetStepped(s, c, g);
    GetLeavesLists(s, c, g);
    GetKeepsPages(s, c, g);
    GetLocal(s, c, g);
    GenerationStands(s, s');
    ReadersStand(s, s', c);
  }

  lemma ListKeptByLister(s: State, c: Client, l: ListStep)
    requires ListEnabled(s, c, l) && TimelineOk(s) && ListOk(s)
    ensures ListOk(ListStepped(s, c, l))
  {
    var s' := ListStepped(s, c, l);
    assert ReaderOk(s, s.At(c));
    if l.ListToken? {
      TokenKeepsGeneration(s, c, l.text, l.o);
    } else {
      ListLeavesGeneration(s, c, l);
      ListKeepsReader(s, c, l);
      GenerationStands(s, s');
    }
    ListKeepsPages(s, c, l);
    ListLocal(s, c, l);
    ReadersStand(s, s', c);
  }

  lemma ListKeptByCounter(s: State, c: Client, n: CountStep)
    requires CountEnabled(s, c, n) && ListOk(s)
    ensures ListOk(CountStepped(s, c, n))
  {
    var s' := CountStepped(s, c, n);
    CountLocal(s, c, n);
    CountLeavesLists(s, s', c);
    GenerationStands(s, s');
    ReadersStand(s, s', c);
  }

  lemma ListKept(s: State, a: Step)
    requires Enabled(s, a) && TimelineOk(s) && OwnersOk(s) && ListOk(s)
    ensures ListOk(Stepped(s, a))
  {
    match a
    case Env(e) => ListKeptByEnv(s, e);
    case Getting(c, g) => ListKeptByGetter(s, c, g);
    case Listing(c, l) => ListKeptByLister(s, c, l);
    case Counting(c, n) => ListKeptByCounter(s, c, n);
    case Writing(c, w) => ListKeptByWriter(s, c, w);
  }
}
