/** What it means for the cache to agree with the database, and which cache commands keep that. */
module Coherence {
  import opened Prelude
  import opened Tasks
  import opened TaskTable
  import opened Redis

  /** Random texts: the n-th one drawn.  They never repeat. */
  type Texts = nat -> string

  ghost predicate NeverRepeats(text: Texts) {
    forall i, j :: text(i) == text(j) ==> i == j
  }

  /** Cached tasks are live rows; a task that is not found is never cached. */
  ghost predicate TasksAgree(s: Store, t: Table) {
    forall k :: k in s.entries && k.TaskKey? ==> IsLive(t, k.id) && s.entries[k].value == TaskValue(t[k.id].task)
  }

  /** The pages under the generation in force are the database's answers. */
  ghost predicate ListsAgree(s: Store, t: Table) {
    && (GenerationKey in s.entries ==> s.entries[GenerationKey].value.TokenValue?)
    && forall k :: k in s.entries && k.PageKey? && GenerationKey in s.entries
                   && s.entries[GenerationKey].value == TokenValue(k.generation) ==>
                     k.req.limit >= 0 && s.entries[k].value == PageValue(ListAnswer(t, k.req))
  }

  ghost predicate CountAgrees(s: Store, t: Table) {
    CountKey in s.entries ==> s.entries[CountKey].value == CountValue(LiveCount(t))
  }

  ghost predicate Agrees(s: Store, t: Table) {
    TasksAgree(s, t) && ListsAgree(s, t) && CountAgrees(s, t)
  }

  /** No page is stored under a text not drawn yet. */
  ghost predicate FutureUnused(s: Store, text: Texts, drawn: nat) {
    forall k, i :: k in s.entries && k.PageKey? && i >= drawn ==> k.generation != text(i)
  }

  /** The same for the generation in force. */
  ghost predicate GenerationDrawn(s: Store, text: Texts, drawn: nat) {
    forall i :: i >= drawn && GenerationKey in s.entries ==> s.entries[GenerationKey].value != TokenValue(text(i))
  }

  ghost predicate TextsOk(s: Store, text: Texts, drawn: nat) {
    NeverRepeats(text) && FutureUnused(s, text, drawn) && GenerationDrawn(s, text, drawn)
  }

  /** No lease on the count lock lasts longer than a lease can. */
  predicate LockBounded(s: Store) {
    CountLockKey in s.entries ==> s.entries[CountLockKey].expires <= s.now + COUNT_LOCK_TTL
  }

  lemma WeatherKeeps(s: Store, t: Table, lag: nat, dropped: set<Key>)
    ensures var s' := s.Weathered(lag, dropped);
            && (TasksAgree(s, t) ==> TasksAgree(s', t)) && (ListsAgree(s, t) ==> ListsAgree(s', t))
            && (CountAgrees(s, t) ==> CountAgrees(s', t)) && (LockBounded(s) ==> LockBounded(s'))
  {
  }

  lemma CalmWeather(s: Store)
    ensures s.Weathered(0, {}) == s
  {
    assert s.entries - {} == s.entries;
  }

  lemma WeatherKeepsTexts(s: Store, text: Texts, drawn: nat, lag: nat, dropped: set<Key>)
    requires TextsOk(s, text, drawn)
    ensures TextsOk(s.Weathered(lag, dropped), text, drawn)
  {
  }

  lemma TaskStored(s: Store, t: Table, id: int, ttl: nat)
    requires IsLive(t, id)
    ensures var s' := s.Set(TaskKey(id), TaskValue(t[id].task), ttl);
            && (TasksAgree(s, t) ==> TasksAgree(s', t)) && (ListsAgree(s, t) ==> ListsAgree(s', t))
            && (CountAgrees(s, t) ==> CountAgrees(s', t)) && (LockBounded(s) ==> LockBounded(s'))
  {
  }

  lemma PageStored(s: Store, t: Table, generation: string, req: ListTasksRequest, ttl: nat)
    requires req.limit >= 0
    ensures var s' := s.Set(PageKey(generation, req), PageValue(ListAnswer(t, req)), ttl);
            && (TasksAgree(s, t) ==> TasksAgree(s', t)) && (ListsAgree(s, t) ==> ListsAgree(s', t))
            && (CountAgrees(s, t) ==> CountAgrees(s', t)) && (LockBounded(s) ==> LockBounded(s'))
  {
  }

  /** The lock has no part in what the cache says. */
  lemma OtherKeysAgree(s: Store, s': Store, t: Table)
    requires forall k :: k != CountLockKey ==>
                           (k in s'.entries <==> k in s.entries) && (k in s'.entries ==> s'.entries[k] == s.entries[k])
    ensures Agrees(s, t) ==> Agrees(s', t)
  {
    assert GenerationKey != CountLockKey && CountKey != CountLockKey;
  }

  /** A page under the generation in force is the database's answer. */
  lemma PageHeld(s: Store, t: Table, generation: string, req: ListTasksRequest)
    requires ListsAgree(s, t) && s.Get(GenerationKey) == Some(TokenValue(generation))
    requires PageKey(generation, req) in s.entries
    ensures req.limit >= 0 && s.entries[PageKey(generation, req)].value == PageValue(ListAnswer(t, req))
  {
  }

  /** A generation never used before has no pages, whatever the table. */
  lemma GenerationInstalled(s: Store, t: Table, text: Texts, drawn: nat, ttl: nat)
    requires TextsOk(s, text, drawn)
    ensures var s' := s.Set(GenerationKey, TokenValue(text(drawn)), ttl);
            && ListsAgree(s', t) && (TasksAgree(s, t) ==> TasksAgree(s', t))
            && (CountAgrees(s, t) ==> CountAgrees(s', t)) && (LockBounded(s) ==> LockBounded(s'))
            && TextsOk(s', text, drawn + 1)
  {
  }

  /** The write of one task leaves every other cached task in agreement; an insert leaves them all. */
  lemma WriteSparesOthers(s: Store, t: Table, w: Write)
    requires Allowed(t, w) && TasksAgree(s, t)
    ensures TasksAgree(s.Del(TaskKey(Touched(w))), After(t, w))
    ensures w.Insert? ==> TasksAgree(s, After(t, w))
  {
  }

  lemma UpdateSparesCount(s: Store, t: Table, w: Write)
    requires Allowed(t, w) && w.Patch? && CountAgrees(s, t)
    ensures CountAgrees(s, After(t, w))
  {
    CountAfter(t, w);
  }
}
