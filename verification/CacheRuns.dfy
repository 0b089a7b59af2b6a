/** Runs of the cache, from an empty start, that end where its promises fail: on LFU, which can
    prefer a new entry to the one it had begun to evict; on LRU, when a re-embedding comes
    upon an unfinished eviction; and after a flush that the store refused. */
module CacheRuns {
  import opened Entries
  import opened Policies
  import opened CacheEngine
  import Migration

  const SAMPLE := Job("prompt", [], "reply")
  const CLEAN := UpdateFaults(false, false, false, [])

  function Stored(id: Id, now: int): Entry {
    Entry(id, "prompt", "reply", [], now)
  }

  /** Capacity 1. `a` is inserted; measuring the store fails while `b` is inserted, so both
      stay, and one query hits both; inserting `c` evicts `c` itself and then `a`, whose
      vector cannot be deleted. */
  function History(a: Id, b: Id, c: Id): seq<Op> {
    [UpdateOp(SAMPLE, a, 0, CLEAN),
     UpdateOp(SAMPLE, b, 1, UpdateFaults(false, false, false, [SizeFails])),
     QueryOp([a, b]),
     UpdateOp(SAMPLE, c, 2, UpdateFaults(false, false, false, [NoFault, VectorDeleteFails]))]
  }

  ghost function EmptyOn(kind: Policy): Cache {
    Cache(map[], map[], kind.Flush(), 0)
  }

  ghost function Empty(): Cache {
    EmptyOn(Lfu(map[], 0))
  }

  ghost function Alone(a: Id): Cache {
    Cache(map[a := []], map[a := Stored(a, 0)], Lfu(map[a := LfuEntry(1, 0)], 1), 0)
  }

  /** `a` and `b` in the order they were inserted, with their hit counts. */
  function Counts(a: Id, i: int, b: Id, j: int): Policy {
    Lfu(map[a := LfuEntry(i, 0), b := LfuEntry(j, 1)], 2)
  }

  ghost function Crowded(a: Id, b: Id, count: int): Cache {
    Cache(map[a := [], b := []], map[a := Stored(a, 0), b := Stored(b, 1)], Counts(a, count, b, count), 0)
  }

  /** After the first of the two last evictions: `c` has come and gone. */
  ghost function Thinned(a: Id, b: Id): Cache {
    Crowded(a, b, 2).(policy := Lfu(Crowded(a, b, 2).policy.entries, 3), evictions := 1)
  }

  /** `a` has left the store, but its vector and its policy entry are still there. */
  ghost function Stuck(a: Id, b: Id): Cache {
    Thinned(a, b).(store := map[b := Stored(b, 1)])
  }

  ghost function States(a: Id, b: Id): seq<Cache> {
    [Empty(), Alone(a), Crowded(a, b, 1), Crowded(a, b, 2), Stuck(a, b)]
  }

  /** The operation is allowed in the state and leads to the next one. */
  ghost predicate Leads(s: Cache, op: Op, t: Cache) {
    s.policy.Valid() && Allowed(s, op) && t == Step(s, 1, op)
  }

  lemma One<K, T>(k: K, v: T)
    ensures |map[k := v]| == 1
  {
    AddThenDrop(map[], k, v);
    assert map[][k := v] == map[k := v];
  }

  lemma Two<K, T>(k: K, v: T, l: K, w: T)
    requires k != l
    ensures |map[k := v, l := w]| == 2 && map[k := v, l := w] - {l} == map[k := v]
    ensures map[k := v, l := w] - {k} == map[l := w]
  {
    One(k, v);
    AddThenDrop(map[k := v], l, w);
    assert map[k := v][l := w] == map[k := v, l := w];
  }

  lemma InsertFirst(a: Id)
    ensures Leads(Empty(), UpdateOp(SAMPLE, a, 0, CLEAN), Alone(a))
  {
    One(a, Stored(a, 0));
    assert Admit(Empty(), SAMPLE, a, 0) == Alone(a);
    HooksKeepValid(Empty().policy, Insert(a));
    assert Evict(Alone(a), 1, []) == (Alone(a), Done);
  }

  lemma QueryLeads(s: Cache, matches: seq<Id>, p: Policy)
    requires s.policy.Valid() && HitAll(s.policy, Served(s, matches)) == p
    ensures Leads(s, QueryOp(matches), s.(policy := p))
  {}

  /** One more match of a persisted id is one more hit. */
  lemma OneByOne(s: Cache, matches: seq<Id>, id: Id)
    requires id in s.store
    ensures Served(s, matches + [id]) == Served(s, matches) + [id]
    ensures HitAll(s.policy, Served(s, matches + [id])) == HitAll(s.policy, Served(s, matches)).OnHit(id)
  {
    assert (matches + [id])[..|matches|] == matches;
    var served := Served(s, matches);
    assert (served + [id])[..|served|] == served;
  }

  lemma InsertSecond(a: Id, b: Id)
    requires a != b
    ensures Leads(Alone(a), UpdateOp(SAMPLE, b, 1, UpdateFaults(false, false, false, [SizeFails])), Crowded(a, b, 1))
  {
    AdmitSecond(a, b);
    HooksKeepValid(Alone(a).policy, Insert(b));
    assert Evict(Crowded(a, b, 1), 1, [SizeFails]) == (Crowded(a, b, 1), Failed);
  }

  lemma AdmitSecond(a: Id, b: Id)
    requires a != b
    ensures Admit(Alone(a), SAMPLE, b, 1) == Crowded(a, b, 1)
  {
    assert Alone(a).policy.OnInsert(b) == Counts(a, 1, b, 1);
  }

  lemma HitBoth(a: Id, b: Id)
    requires a != b
    ensures Leads(Crowded(a, b, 1), QueryOp([a, b]), Crowded(a, b, 2))
  {
    BothAreHit(Crowded(a, b, 1), a, b);
    OneHitEach(a, b);
    QueryLeads(Crowded(a, b, 1), [a, b], Crowded(a, b, 2).policy);
  }

  lemma BothAreHit(s: Cache, a: Id, b: Id)
    requires a in s.store && b in s.store
    ensures HitAll(s.policy, Served(s, [a, b])) == s.policy.OnHit(a).OnHit(b)
  {
    OneByOne(s, [], a);
    OneByOne(s, [a], b);
    assert [] + [a] == [a] && [a] + [b] == [a, b];
  }

  lemma OneHitEach(a: Id, b: Id)
    requires a != b
    ensures Counts(a, 1, b, 1).OnHit(a).OnHit(b) == Counts(a, 2, b, 2)
  {
    var m := map[a := LfuEntry(1, 0), b := LfuEntry(1, 1)];
    assert m[a := LfuEntry(2, 0)] == map[a := LfuEntry(2, 0), b := LfuEntry(1, 1)];
    assert m[a := LfuEntry(2, 0)][b := LfuEntry(2, 1)] == map[a := LfuEntry(2, 0), b := LfuEntry(2, 1)];
  }

  lemma CrowdedFacts(a: Id, b: Id)
    requires a != b
    ensures var s := Crowded(a, b, 2);
            s.policy.Valid() && AllHit(s.policy) && s.policy.Ids() == {a, b} && |s.store| == 2
  {
    Two(a, Stored(a, 0), b, Stored(b, 1));
  }

  /** The first eviction removes the newcomer. */
  lemma EvictNewcomer(a: Id, b: Id, c: Id)
    requires a != b && b != c && a != c
    ensures var full := Admit(Crowded(a, b, 2), SAMPLE, c, 2);
            full.policy.Valid() && Round(full, 1, NoFault) == (Thinned(a, b), Again)
  {
    CrowdedFacts(a, b);
    NewcomerRemoved(Crowded(a, b, 2), c);
  }

  lemma NewcomerRemoved(s: Cache, c: Id)
    requires s.policy.Valid() && AllHit(s.policy) && c !in s.policy.Ids() && c !in s.vectors && c !in s.store
    requires |s.store| > 0
    ensures var full := Admit(s, SAMPLE, c, 2);
            && full.policy.Valid()
            && Round(full, 1, NoFault)
               == (s.(policy := Lfu(s.policy.entries, s.policy.next + 1), evictions := s.evictions + 1), Again)
  {
    var full := Admit(s, SAMPLE, c, 2);
    assert full.store == s.store[c := Stored(c, 2)] && full.vectors == s.vectors[c := []];
    assert full.policy.Valid() by { HooksKeepValid(s.policy, Insert(c)); }
    assert full.policy.Victim() == Some(c) by { NewcomerIsVictim(s.policy, c); }
    assert |full.store| > 1 && full.store - {c} == s.store by { AddThenDrop(s.store, c, Stored(c, 2)); }
    assert full.vectors - {c} == s.vectors by { AddThenDrop(s.vectors, c, []); }
    NewcomerForgotten(s.policy, c);
    RoundEvicts(full, 1, c);
  }

  lemma NewcomerForgotten(p: Policy, c: Id)
    requires p.Lfu? && c !in p.entries
    ensures p.OnInsert(c).OnDelete(c) == Lfu(p.entries, p.next + 1)
  {
    AddThenDrop(p.entries, c, LfuEntry(1, p.next));
  }

  /** The second takes `a`, the older of the two, out of the store and fails on its vector. */
  lemma EvictSecond(a: Id, b: Id)
    requires a != b
    ensures Thinned(a, b).policy.Valid() && Round(Thinned(a, b), 1, VectorDeleteFails) == (Stuck(a, b), Stop(Failed))
  {
    CrowdedFacts(a, b);
    Two(a, Stored(a, 0), b, Stored(b, 1));
    assert Thinned(a, b).policy.IsVictim(a);
    VictimCharacterized(Thinned(a, b).policy);
  }

  lemma InsertThird(a: Id, b: Id, c: Id)
    requires a != b && b != c && a != c
    ensures Leads(Crowded(a, b, 2), UpdateOp(SAMPLE, c, 2,
        UpdateFaults(false, false, false, [NoFault, VectorDeleteFails])), Stuck(a, b))
  {
    CrowdedFacts(a, b);
    EvictNewcomer(a, b, c);
    EvictSecond(a, b);
    var faults := [NoFault, VectorDeleteFails];
    assert Head(faults) == NoFault && Tail(faults) == [VectorDeleteFails] && Head(Tail(faults)) == VectorDeleteFails;
    TwoRounds(Admit(Crowded(a, b, 2), SAMPLE, c, 2), Thinned(a, b), Stuck(a, b), Failed, 1, faults);
  }

  lemma RunFromEmpty(ss: seq<Cache>, ops: seq<Op>, kind: Policy)
    requires |ss| == |ops| + 1 && ss[0] == EmptyOn(kind) && forall i :: 0 <= i < |ops| ==>
        Leads(ss[i], ops[i], ss[i + 1])
    ensures IsRun(ss, 1, ops)
  {
    var l: seq<Entry> := [];
    assert IdsOf(l) == [];
    assert IsListing(l, ss[0].store) && ss[0] == Restart(ss[0].store, kind, l);
    forall i | 0 <= i < |ops|
      ensures ss[i].policy.Valid() && Allowed(ss[i], ops[i]) && ss[i + 1] == Step(ss[i], 1, ops[i])
    {
      assert Leads(ss[i], ops[i], ss[i + 1]);
    }
  }

  lemma HalfGone(a: Id, b: Id)
    requires a != b
    ensures HalfEvicted(Stuck(a, b)) == {a}
  {}

  lemma LeadsAt(a: Id, b: Id, c: Id, i: nat)
    requires a != b && b != c && a != c && i < 4
    ensures Leads(States(a, b)[i], History(a, b, c)[i], States(a, b)[i + 1])
  {
    if i == 0 {
      InsertFirst(a);
    } else if i == 1 {
      InsertSecond(a, b);
    } else if i == 2 {
      HitBoth(a, b);
    } else {
      InsertThird(a, b, c);
    }
  }

  /** The stuck state is reached by a run of the service. */
  lemma StuckIsReached(a: Id, b: Id, c: Id)
    requires a != b && b != c && a != c
    ensures IsRun(States(a, b), 1, History(a, b, c)) && States(a, b)[4] == Stuck(a, b)
    ensures HalfEvicted(Stuck(a, b)) == {a}
  {
    HalfGone(a, b);
    var ss, ops := States(a, b), History(a, b, c);
    assert |ss| == |ops| + 1 && ss[0] == Empty();
    forall i | 0 <= i < |ops| ensures Leads(ss[i], ops[i], ss[i + 1]) { LeadsAt(a, b, c, i); }
    RunFromEmpty(ss, ops, Lfu(map[], 0));
  }

  /** And there an update whose calls all succeed does not heal. */
  lemma LfuStuckState(a: Id, b: Id, c: Id, d: Id)
    requires a != b && b != c && a != c && d != a && d != b
    ensures var (r, o) := Update(Stuck(a, b), 1, SAMPLE, d, 3, CLEAN);
            o == Done && HalfEvicted(r) == {a} && r.policy.Ids() != r.store.Keys
  {
    StuckIsReached(a, b, c);
    RunKeepsInv(States(a, b), 1, History(a, b, c), 4);
    One(b, Stored(b, 1));
    LfuOvertakes(Stuck(a, b), 1, SAMPLE, d, 3, CLEAN);
    assert a in HalfEvicted(Update(Stuck(a, b), 1, SAMPLE, d, 3, CLEAN).0);
  }

  // ---- LRU: a re-embedding upon an unfinished eviction --------------------------------------------

  /** Capacity 1. `a` is inserted; inserting `b` evicts `a`, whose vector cannot be deleted. */
  function PendingHistory(a: Id, b: Id): seq<Op> {
    [UpdateOp(SAMPLE, a, 0, CLEAN),
     UpdateOp(SAMPLE, b, 1, UpdateFaults(false, false, false, [VectorDeleteFails]))]
  }

  ghost function OnlyLru(a: Id): Cache {
    Cache(map[a := []], map[a := Stored(a, 0)], Lru([a]), 0)
  }

  /** `a` has left the store, but its vector and its policy entry are still there. */
  ghost function HalfDone(a: Id, b: Id): Cache {
    Cache(map[a := [], b := []], map[b := Stored(b, 1)], Lru([b, a]), 0)
  }

  lemma InsertFirstLru(a: Id)
    ensures Leads(EmptyOn(Lru([])), UpdateOp(SAMPLE, a, 0, CLEAN), OnlyLru(a))
  {
    One(a, Stored(a, 0));
    assert Admit(EmptyOn(Lru([])), SAMPLE, a, 0) == OnlyLru(a) by { assert [a] + [] == [a]; }
    assert Evict(OnlyLru(a), 1, []) == (OnlyLru(a), Done);
  }

  lemma InsertSecondLru(a: Id, b: Id)
    requires a != b
    ensures Leads(OnlyLru(a), UpdateOp(SAMPLE, b, 1, UpdateFaults(false, false, false, [VectorDeleteFails])),
        HalfDone(a, b))
  {
    var c := Admit(OnlyLru(a), SAMPLE, b, 1);
    assert Without([a], b) == [a] && [b] + [a] == [b, a];
    assert c.policy == Lru([b, a]);
    Two(a, Stored(a, 0), b, Stored(b, 1));
    assert c.store == map[a := Stored(a, 0), b := Stored(b, 1)];
    assert c.policy.IsVictim(a);
    VictimCharacterized(c.policy);
    assert c.store - {a} == HalfDone(a, b).store;
    assert Round(c, 1, VectorDeleteFails) == (HalfDone(a, b), Stop(Failed));
    assert Evict(c, 1, [VectorDeleteFails]) == (HalfDone(a, b), Failed);
  }

  lemma HalfDoneIsReached(a: Id, b: Id)
    requires a != b
    ensures IsRun([EmptyOn(Lru([])), OnlyLru(a), HalfDone(a, b)], 1, PendingHistory(a, b))
    ensures HalfEvicted(HalfDone(a, b)) == {a}
  {
    InsertFirstLru(a);
    InsertSecondLru(a, b);
    var ss, ops := [EmptyOn(Lru([])), OnlyLru(a), HalfDone(a, b)], PendingHistory(a, b);
    forall i | 0 <= i < |ops| ensures Leads(ss[i], ops[i], ss[i + 1]) { assert i == 0 || i == 1; }
    RunFromEmpty(ss, ops, Lru([]));
    assert HalfDone(a, b).policy.Ids() == {a, b};
  }

  /** A run on LRU reaches a state in which a successful re-embedding breaks the invariant and
      leaves the store growing for good, whatever the embedder. */
  lemma ReembedBlocksAReachedState(a: Id, b: Id, embed: string -> Option<Vector>)
    requires a != b
    ensures Inv(HalfDone(a, b)) && !Inv(Migration.AfterReembed(HalfDone(a, b), embed))
    ensures Migration.Blocked(Migration.AfterReembed(HalfDone(a, b), embed), 1, a)
  {
    HalfDoneIsReached(a, b);
    var ss, ops := [EmptyOn(Lru([])), OnlyLru(a), HalfDone(a, b)], PendingHistory(a, b);
    RunKeepsOnePending(ss, 1, ops, 2);
    assert a in HalfEvicted(HalfDone(a, b));
    Migration.ReembedKeepsInvIff(HalfDone(a, b), embed);
    Migration.ReembedBlocks(HalfDone(a, b), embed, 1, a);
  }

  // ---- a restoration that lost the index --------------------------------------------------------------

  /** One update; then a re-embedding whose rebuild fails, and whose second rebuild, with the
      old vectors, works on none of them: it is reported as undone, and the index is empty. */
  lemma RestoreLosesIndex(a: Id, embed: string -> Option<Vector>)
      returns (ops: seq<Op>, f: Migration.ReembedFaults)
    requires Migration.CanEmbed(Stored(a, 0), embed, 0)
    ensures IsRun([EmptyOn(Lru([])), OnlyLru(a)], 1, ops)
    ensures Migration.CanStage(OnlyLru(a).store, 1, 1, embed, 0, f)
    ensures Migration.WriteOutcome(1, f) == Migration.Restored
    ensures var r := Migration.AfterRestore(OnlyLru(a), f);
            !Inv(r) && r.vectors == map[] && r.store == OnlyLru(a).store && |r.store| == 1
  {
    ops := [UpdateOp(SAMPLE, a, 0, CLEAN)];
    f := Migration.ReembedFaults(false, _ => false, Migration.RebuildFails(map[]), _ => false,
                                 Migration.RebuildShort(map[]));
    InsertFirstLru(a);
    var ss := [EmptyOn(Lru([])), OnlyLru(a)];
    forall i | 0 <= i < |ops| ensures Leads(ss[i], ops[i], ss[i + 1]) { assert i == 0; }
    RunFromEmpty(ss, ops, Lru([]));
    RunKeepsInv(ss, 1, ops, 1);
    One(a, Stored(a, 0));
    Migration.RestoreKeepsInvIff(OnlyLru(a), f);
    assert OnlyLru(a).policy.Ids() == {a};
  }

  // ---- a flush that the store refuses ---------------------------------------------------------------

  /** One update and one such flush leave an entry that nothing can find or evict. */
  lemma FlushLosesEntry(a: Id)
    ensures Leads(EmptyOn(Lru([])), UpdateOp(SAMPLE, a, 0, CLEAN), OnlyLru(a))
    ensures var (r, o) := Flush(OnlyLru(a), false, true);
            o == Done && !Inv(r) && a in r.store && a !in r.vectors && a !in r.policy.Ids()
  {
    InsertFirstLru(a);
    assert a in OnlyLru(a).store.Keys;
  }
}
