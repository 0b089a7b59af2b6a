/** The cache write path: three stores kept in step while every backend call may fail.

    V is the vector index, S the persisted entries, P the eviction policy. A backend
    call either takes full effect or reports an error and has none. */
module CacheEngine {
  import opened Entries
  import opened Policies

  datatype Cache = Cache(vectors: map<Id, Vector>, store: map<Id, Entry>, policy: Policy, evictions: nat)

  /** What goes wrong in one round of the eviction loop. */
  datatype EvictFault = NoFault | SizeFails | StoreDeleteFails | VectorDeleteFails

  /** What goes wrong in one update; `compensate` is the delete that undoes an upsert. */
  datatype UpdateFaults = UpdateFaults(upsert: bool, save: bool, compensate: bool, evict: seq<EvictFault>)

  datatype Outcome = Done | Failed | NoVictim

  datatype Job = Job(prompt: string, vector: Vector, reply: string)

  function Head(faults: seq<EvictFault>): EvictFault {
    if faults == [] then NoFault else faults[0]
  }

  function Tail(faults: seq<EvictFault>): seq<EvictFault> {
    if faults == [] then [] else faults[1..]
  }

  // ---- the operations ---------------------------------------------------------------

  ghost function Remove(c: Cache, id: Id): Cache {
    Cache(c.vectors - {id}, c.store - {id}, c.policy.OnDelete(id), c.evictions + 1)
  }

  /** What one round of the eviction loop decides. */
  datatype Verdict = Again | Stop(outcome: Outcome)

  /** One round: measure S, ask for a victim, delete it from S, then V, then P. */
  ghost function Round(c: Cache, capacity: int, f: EvictFault): (Cache, Verdict) {
    if f.SizeFails? then (c, Stop(Failed))
    else if |c.store| <= capacity then (c, Stop(Done))
    else
      match c.policy.Victim()
      case None => (c, Stop(NoVictim))
      case Some(v) =>
        if f.StoreDeleteFails? then (c, Stop(Failed))
        else if f.VectorDeleteFails? || v !in c.vectors then (c.(store := c.store - {v}), Stop(Failed))
        else (Remove(c, v), Again)
  }

  lemma RoundShrinks(c: Cache, capacity: int, f: EvictFault)
    requires c.policy.Valid()
    ensures var (next, verdict) := Round(c, capacity, f);
            next.policy.Valid() && (verdict.Again? ==> |next.policy.Ids()| < |c.policy.Ids()|)
  {
    VictimCharacterized(c.policy);
    if c.policy.Victim().Some? {
      var v := c.policy.Victim().value;
      HooksKeepValid(c.policy, Delete(v));
    }
  }

  /** The eviction loop. |P| falls in every round that goes on; |S| need not, because
      the victim of an interrupted eviction is already gone from S. */
  ghost function Evict(c: Cache, capacity: int, faults: seq<EvictFault>): (Cache, Outcome)
    requires c.policy.Valid()
    decreases |c.policy.Ids()|
  {
    RoundShrinks(c, capacity, Head(faults));
    var (next, verdict) := Round(c, capacity, Head(faults));
    if verdict.Again? then Evict(next, capacity, Tail(faults)) else (next, verdict.outcome)
  }

  ghost function EnforceCapacity(c: Cache, capacity: int, faults: seq<EvictFault>): (Cache, Outcome)
    requires c.policy.Valid()
  {
    if capacity <= 0 then (c, Done) else Evict(c, capacity, faults)
  }

  /** The state after a successful upsert, save and OnInsert. */
  ghost function Admit(c: Cache, job: Job, id: Id, now: int): Cache {
    c.(vectors := c.vectors[id := job.vector],
       store := c.store[id := Entry(id, job.prompt, job.reply, job.vector, now)],
       policy := c.policy.OnInsert(id))
  }

  ghost function Update(c: Cache, capacity: int, job: Job, id: Id, now: int, f: UpdateFaults): (Cache, Outcome)
    requires c.policy.Valid()
  {
    if f.upsert then (c, Failed)
    else if f.save then
      (c.(vectors := if f.compensate then c.vectors[id := job.vector] else c.vectors[id := job.vector] - {id}), Failed)
    else
      HooksKeepValid(c.policy, Insert(id));
      EnforceCapacity(Admit(c, job, id, now), capacity, f.evict)
  }

  /** The persisted matches, in the order the index returned them. */
  ghost function Served(c: Cache, matches: seq<Id>): seq<Id> {
    if matches == [] then []
    else Served(c, matches[..|matches| - 1]) +
         if matches[|matches| - 1] in c.store then [matches[|matches| - 1]] else []
  }

  ghost function HitAll(p: Policy, ids: seq<Id>): Policy {
    if ids == [] then p else HitAll(p, ids[..|ids| - 1]).OnHit(ids[|ids| - 1])
  }

  ghost function Query(c: Cache, matches: seq<Id>): Cache {
    c.(policy := HitAll(c.policy, Served(c, matches)))
  }

  ghost function Flush(c: Cache, vectorFails: bool, storeFails: bool): (Cache, Outcome) {
    if vectorFails then (c, Failed)
    else (Cache(map[], if storeFails then c.store else map[], c.policy.Flush(), 0), Done)
  }

  /** A fresh service over the same persisted entries, replayed in the order `l`. */
  ghost function Restart(store: map<Id, Entry>, kind: Policy, l: seq<Entry>): Cache {
    Cache(VectorsOf(store), store, InsertAll(kind.Flush(), IdsOf(l)), 0)
  }

  // ---- the invariant ------------------------------------------------------------------

  /** S ids <= P ids <= V ids, and the index holds each entry's own vector. */
  ghost predicate Inv(c: Cache) {
    && c.policy.Valid()
    && WellKeyed(c.store)
    && c.store.Keys <= c.policy.Ids() <= c.vectors.Keys
    && forall id :: id in c.store ==> c.vectors[id] == c.store[id].vector
  }

  ghost predicate AllSucceed(faults: seq<EvictFault>) {
    forall f :: f in faults ==> f.NoFault?
  }

  lemma RemoveKeepsInv(c: Cache, v: Id)
    requires Inv(c)
    ensures Inv(Remove(c, v))
    ensures Remove(c, v).policy.Ids() == c.policy.Ids() - {v}
    ensures Inv(c.(store := c.store - {v}))
  {
    HooksKeepValid(c.policy, Delete(v));
  }

  lemma OneLess<T>(s: set<T>, x: T)
    requires x in s
    ensures |s - {x}| == |s| - 1
  {}

  lemma ShrinkBy<K, T>(m: map<K, T>, k: K)
    ensures |m - {k}| == if k in m then |m| - 1 else |m|
  {
    assert (m - {k}).Keys == m.Keys - {k};
    assert |m| == |m.Keys| && |m - {k}| == |(m - {k}).Keys|;
  }

  /** A round keeps the invariant whatever fails; it never lacks a victim, and it goes
      on only after removing one that the index held. */
  lemma RoundKeepsInv(c: Cache, capacity: int, f: EvictFault)
    requires Inv(c) && capacity >= 0
    ensures var (next, verdict) := Round(c, capacity, f);
            && Inv(next) && verdict != Stop(NoVictim)
            && (f.NoFault? ==> verdict.Again? || verdict == Stop(Done))
            && (verdict == Stop(Done) ==> next == c && |c.store| <= capacity)
  {
    if !f.SizeFails? && |c.store| > capacity {
      assert c.policy.Ids() != {} by { assert |c.store| == |c.store.Keys|; }
      var v := NextVictim(c.policy);
      RemoveKeepsInv(c, v);
    }
  }

  lemma RoundRemoves(c: Cache, capacity: int, f: EvictFault) returns (v: Id)
    requires Inv(c) && capacity >= 0 && Round(c, capacity, f).1.Again?
    ensures c.policy.Victim() == Some(v) && v in c.policy.Ids()
    ensures Round(c, capacity, f).0 == Remove(c, v) && Inv(Remove(c, v))
    ensures Remove(c, v).policy.Ids() == c.policy.Ids() - {v}
    ensures |Remove(c, v).policy.Ids()| == |c.policy.Ids()| - 1
    ensures |c.store| > capacity
    ensures |c.store - {v}| == if v in c.store then |c.store| - 1 else |c.store|
  {
    assert c.policy.Ids() != {} by { assert |c.store| == |c.store.Keys|; }
    v := NextVictim(c.policy);
    RemoveKeepsInv(c, v);
    RoundEvicts(c, capacity, v);
    OneLess(c.policy.Ids(), v);
    ShrinkBy(c.store, v);
  }

  /** Whatever fails, eviction keeps the invariant; a victim is always found, and the
      index is never asked to delete an id it lacks: without faults it finishes. */
  lemma {:induction false} EvictKeepsInv(c: Cache, capacity: int, faults: seq<EvictFault>)
    requires Inv(c) && capacity >= 0
    ensures Inv(Evict(c, capacity, faults).0)
    ensures Evict(c, capacity, faults).1 != NoVictim
    ensures AllSucceed(faults) ==> Evict(c, capacity, faults).1 == Done
    decreases |c.policy.Ids()|
  {
    RoundKeepsInv(c, capacity, Head(faults));
    if AllSucceed(faults) && faults != [] {
      assert faults[0] in faults;
      assert forall f :: f in faults[1..] ==> f in faults;
    }
    var (next, verdict) := Round(c, capacity, Head(faults));
    if verdict.Again? {
      RoundShrinks(c, capacity, Head(faults));
      EvictKeepsInv(next, capacity, Tail(faults));
    }
  }

  lemma AdmitKeepsInv(c: Cache, job: Job, id: Id, now: int)
    requires Inv(c) && id !in c.vectors
    ensures Inv(Admit(c, job, id, now))
    ensures Admit(c, job, id, now).policy.Ids() == c.policy.Ids() + {id}
  {
    HooksKeepValid(c.policy, Insert(id));
  }

  lemma UpdateKeepsInv(c: Cache, capacity: int, job: Job, id: Id, now: int, f: UpdateFaults)
    requires Inv(c) && id !in c.vectors
    ensures Inv(Update(c, capacity, job, id, now, f).0)
    ensures Update(c, capacity, job, id, now, f).1 != NoVictim
    ensures !f.upsert && !f.save && AllSucceed(f.evict) ==> Update(c, capacity, job, id, now, f).1 == Done
  {
    if !f.upsert && !f.save {
      AdmitKeepsInv(c, job, id, now);
      if capacity > 0 { EvictKeepsInv(Admit(c, job, id, now), capacity, f.evict); }
    }
  }

  lemma {:induction false} HitsKeepIds(p: Policy, ids: seq<Id>)
    requires p.Valid()
    ensures HitAll(p, ids).Valid() && HitAll(p, ids).Ids() == p.Ids()
  {
    if ids != [] {
      HitsKeepIds(p, ids[..|ids| - 1]);
      HooksKeepValid(HitAll(p, ids[..|ids| - 1]), Hit(ids[|ids| - 1]));
    }
  }

  /** Flushing keeps the invariant exactly when it stops at the index, or the store
      flush works too, or there was nothing to flush: FlushCache only logs a failed
      store flush, which leaves entries no search can find and no policy can evict. */
  lemma FlushKeepsInvIff(c: Cache, vectorFails: bool, storeFails: bool)
    requires Inv(c)
    ensures Inv(Flush(c, vectorFails, storeFails).0) <==> vectorFails || !storeFails || c.store == map[]
  {
    if !vectorFails && storeFails && c.store != map[] {
      var id :| id in c.store;
      assert id in c.store.Keys;
    }
  }

  lemma RestartEstablishesInv(store: map<Id, Entry>, kind: Policy, l: seq<Entry>)
    requires WellKeyed(store) && IsListing(l, store)
    ensures Inv(Restart(store, kind, l))
    ensures Restart(store, kind, l).policy.Ids() == store.Keys && |store| == |l|
  {
    ListingSize(l, store);
    ListedIds(l, store);
    InsertAllIds(kind.Flush(), IdsOf(l));
  }

  // ---- runs -------------------------------------------------------------------------------

  datatype Op =
    | UpdateOp(job: Job, id: Id, now: int, faults: UpdateFaults)
    | QueryOp(matches: seq<Id>)
    | FlushOp(vectorFails: bool)
    | RestartOp(kind: Policy, listing: seq<Entry>)

  /** Generated ids are fresh; a restart lists the store and replays by creation time. */
  ghost predicate Allowed(c: Cache, op: Op) {
    match op
    case UpdateOp(_, id, _, _) => id !in c.vectors
    case RestartOp(_, l) =>
      IsListing(l, c.store) && forall i, j :: 0 <= i < j < |l| ==> l[i].createdAt <= l[j].createdAt
    case _ => true
  }

  ghost function Step(c: Cache, capacity: int, op: Op): Cache
    requires c.policy.Valid()
  {
    match op
    case UpdateOp(job, id, now, f) => Update(c, capacity, job, id, now, f).0
    case QueryOp(matches) => Query(c, matches)
    case FlushOp(vectorFails) => Flush(c, vectorFails, false).0
    case RestartOp(kind, l) => Restart(c.store, kind, l)
  }

  /** `cs` are the states of a run over `ops` of a service started on `cs[0].store`. */
  ghost predicate IsRun(cs: seq<Cache>, capacity: int, ops: seq<Op>) {
    && |cs| == |ops| + 1
    && (exists kind, l :: WellKeyed(cs[0].store) && IsListing(l, cs[0].store) && cs[0] == Restart(cs[0].store, kind, l))
    && forall i :: 0 <= i < |ops| ==>
         cs[i].policy.Valid() && Allowed(cs[i], ops[i]) && cs[i + 1] == Step(cs[i], capacity, ops[i])
  }

  lemma StepKeepsInv(c: Cache, capacity: int, op: Op)
    requires Inv(c) && Allowed(c, op)
    ensures Inv(Step(c, capacity, op))
  {
    match op {
      case UpdateOp(job, id, now, f) => UpdateKeepsInv(c, capacity, job, id, now, f);
      case QueryOp(matches) => HitsKeepIds(c.policy, Served(c, matches));
      case FlushOp(vectorFails) => FlushKeepsInvIff(c, vectorFails, false);
      case RestartOp(kind, l) => RestartEstablishesInv(c.store, kind, l);
    }
  }

  /** Every state of every run satisfies the invariant. */
  lemma {:induction false} RunKeepsInv(cs: seq<Cache>, capacity: int, ops: seq<Op>, n: nat)
    requires IsRun(cs, capacity, ops) && n < |cs|
    ensures Inv(cs[n])
  {
    if n == 0 {
      var kind, l :| WellKeyed(cs[0].store) && IsListing(l, cs[0].store) && cs[0] == Restart(cs[0].store, kind, l);
      RestartEstablishesInv(cs[0].store, kind, l);
    } else {
      RunKeepsInv(cs, capacity, ops, n - 1);
      StepKeepsInv(cs[n - 1], capacity, ops[n - 1]);
    }
  }

  // ---- what a completed eviction removes ------------------------------------------------------

  function SetOf(s: seq<Id>): set<Id> {
    if s == [] then {} else {s[0]} + SetOf(s[1..])
  }

  lemma {:induction false} InSetOf(s: seq<Id>, id: Id)
    ensures id in SetOf(s) <==> id in s
  {
    if s != [] {
      InSetOf(s[1..], id);
      assert s == [s[0]] + s[1..];
    }
  }

  /** The victims taken from `drain` until at most `capacity` of `stored` are left. */
  ghost function Cut(stored: set<Id>, drain: seq<Id>, capacity: int): seq<Id> {
    if |stored| <= capacity || drain == [] then []
    else [drain[0]] + Cut(stored - {drain[0]}, drain[1..], capacity)
  }

  /** It is the shortest prefix of the drain order that brings S down to capacity. */
  lemma {:induction false} CutIsShortest(stored: set<Id>, drain: seq<Id>, capacity: int)
    requires stored <= SetOf(drain) && capacity >= 0
    ensures Cut(stored, drain, capacity) <= drain
    ensures |stored - SetOf(Cut(stored, drain, capacity))| <= capacity
    ensures |stored| >= capacity ==> |stored - SetOf(Cut(stored, drain, capacity))| == capacity
    ensures forall p :: p < Cut(stored, drain, capacity) ==> |stored - SetOf(p)| > capacity
  {
    CutIsPrefix(stored, drain, capacity);
    if |stored| > capacity {
      var v, rest := drain[0], drain[1..];
      assert |stored - {v}| >= capacity by { assert |stored| <= |stored - {v}| + 1; }
      CutIsShortest(stored - {v}, rest, capacity);
      WithoutHead(stored, v, Cut(stored - {v}, rest, capacity));
    } else {
      assert stored - SetOf([]) == stored;
    }
    forall p | p < Cut(stored, drain, capacity) ensures |stored - SetOf(p)| > capacity {
      ShorterIsNotEnough(stored, drain, capacity, p);
    }
  }

  lemma {:induction false} ShorterIsNotEnough(stored: set<Id>, drain: seq<Id>, capacity: int, p: seq<Id>)
    requires p < Cut(stored, drain, capacity)
    ensures |stored - SetOf(p)| > capacity
  {
    if p == [] {
      assert stored - SetOf(p) == stored;
    } else {
      TailOfPrefix(p, Cut(stored, drain, capacity));
      ShorterIsNotEnough(stored - {drain[0]}, drain[1..], capacity, p[1..]);
      WithoutHead(stored, drain[0], p[1..]);
    }
  }

  lemma TailOfPrefix(p: seq<Id>, s: seq<Id>)
    requires p < s && p != []
    ensures p[1..] < s[1..] && p == [s[0]] + p[1..]
  {
    assert p[1..] == s[1..][..|p| - 1];
  }

  lemma WithoutHead(stored: set<Id>, v: Id, rest: seq<Id>)
    ensures stored - SetOf([v] + rest) == stored - {v} - SetOf(rest)
  {
    assert ([v] + rest)[1..] == rest;
  }

  lemma {:induction false} CutIsPrefix(stored: set<Id>, drain: seq<Id>, capacity: int)
    ensures Cut(stored, drain, capacity) <= drain
  {
    if |stored| > capacity && drain != [] {
      CutIsPrefix(stored - {drain[0]}, drain[1..], capacity);
      assert drain == [drain[0]] + drain[1..];
    }
  }

  ghost function RemoveAll(c: Cache, ids: seq<Id>): Cache
    decreases |ids|
  {
    if ids == [] then c else RemoveAll(Remove(c, ids[0]), ids[1..])
  }

  /** Removing `ids` one by one takes exactly them out of all three places. */
  lemma {:induction false} RemoveAllContents(c: Cache, ids: seq<Id>)
    requires c.policy.Valid()
    ensures var r := RemoveAll(c, ids);
            && r.policy.Valid()
            && r.store == c.store - SetOf(ids)
            && r.vectors == c.vectors - SetOf(ids)
            && r.policy.Ids() == c.policy.Ids() - SetOf(ids)
            && r.evictions == c.evictions + |ids|
    decreases |ids|
  {
    if ids != [] {
      HooksKeepValid(c.policy, Delete(ids[0]));
      RemoveAllContents(Remove(c, ids[0]), ids[1..]);
    }
  }

  ghost function Victims(c: Cache, capacity: int): seq<Id>
    requires c.policy.Valid()
  {
    Cut(c.store.Keys, Drain(c.policy), capacity)
  }

  lemma VictimsStep(c: Cache, v: Id, capacity: int)
    requires c.policy.Valid() && c.policy.Victim() == Some(v) && Remove(c, v).policy.Valid()
    requires |c.store| > capacity
    ensures Victims(c, capacity) == [v] + Victims(Remove(c, v), capacity)
  {
    DrainStep(c.policy, v);
    assert |c.store.Keys| > capacity by { assert |c.store| == |c.store.Keys|; }
    assert Remove(c, v).store.Keys == c.store.Keys - {v};
  }

  lemma DrainStep(p: Policy, v: Id)
    requires p.Valid() && p.Victim() == Some(v) && p.OnDelete(v).Valid()
    ensures Drain(p) == [v] + Drain(p.OnDelete(v))
    ensures Drain(p)[0] == v && Drain(p)[1..] == Drain(p.OnDelete(v))
  {}

  /** A completed eviction removes exactly that prefix of the policy's drain order from
      all three places, and counts each removal. */
  lemma {:induction false} EvictRemovesShortestPrefix(c: Cache, capacity: int, faults: seq<EvictFault>)
    requires Inv(c) && capacity >= 0 && Evict(c, capacity, faults).1 == Done
    ensures Evict(c, capacity, faults).0 == RemoveAll(c, Victims(c, capacity))
    decreases |c.policy.Ids()|
  {
    var (next, verdict) := Round(c, capacity, Head(faults));
    RoundKeepsInv(c, capacity, Head(faults));
    if verdict == Stop(Done) {
      assert |c.store.Keys| <= capacity by { assert |c.store| == |c.store.Keys|; }
    } else {
      var v := RoundRemoves(c, capacity, Head(faults));
      EvictRemovesShortestPrefix(next, capacity, Tail(faults));
      VictimsStep(c, v, capacity);
      var rest := Victims(next, capacity);
      assert ([v] + rest)[1..] == rest;
    }
  }

  /** The same, spelled out: what is gone, that it is enough, and that no less would do. */
  lemma EvictionIsExact(c: Cache, capacity: int, faults: seq<EvictFault>)
    requires Inv(c) && capacity >= 0 && Evict(c, capacity, faults).1 == Done
    ensures var gone := Victims(c, capacity);
            var r := Evict(c, capacity, faults).0;
            && gone <= Drain(c.policy)
            && r.store == c.store - SetOf(gone) && r.vectors == c.vectors - SetOf(gone)
            && r.policy.Ids() == c.policy.Ids() - SetOf(gone)
            && r.evictions == c.evictions + |gone|
            && |r.store.Keys| <= capacity && (|c.store| >= capacity ==> |r.store.Keys| == capacity)
            && forall p :: p < gone ==> |c.store.Keys - SetOf(p)| > capacity
  {
    var gone := Victims(c, capacity);
    EvictRemovesShortestPrefix(c, capacity, faults);
    RemoveAllContents(c, gone);
    assert c.store.Keys <= SetOf(Drain(c.policy)) by {
      DrainListsIds(c.policy);
      forall id | id in c.store.Keys ensures id in SetOf(Drain(c.policy)) {
        InSetOf(Drain(c.policy), id);
      }
    }
    assert |c.store| == |c.store.Keys|;
    CutIsShortest(c.store.Keys, Drain(c.policy), capacity);
    assert (c.store - SetOf(gone)).Keys == c.store.Keys - SetOf(gone);
  }

  // ---- interrupted evictions and how they heal ---------------------------------------------------

  /** Ids gone from S whose vector and policy entry are still there. */
  ghost function HalfEvicted(c: Cache): set<Id> {
    c.policy.Ids() - c.store.Keys
  }

  /** Under LRU and FIFO there is at most one, it is next in line, and S is full. */
  ghost predicate OnePending(c: Cache, capacity: int) {
    && !c.policy.Lfu?
    && forall g :: g in HalfEvicted(c) ==> c.policy.Victim() == Some(g) && 0 < capacity <= |c.store|
  }

  lemma VictimSurvives(p: Policy, e: Event, v: Id)
    requires p.Valid() && !p.Lfu? && p.Victim() == Some(v)
    requires (e.Hit? && e.id != v) || (e.Insert? && e.id !in p.Ids())
    ensures !p.Apply(e).Lfu? && p.Apply(e).Victim() == Some(v)
  {
    HooksKeepValid(p, e);
    VictimCharacterized(p.Apply(e));
    if p.Lru? { LastStaysLast(p.order, e.id); }
    assert p.Apply(e).IsVictim(v);
  }

  /** Taking another id out of an LRU list, to put it at the front, leaves the last one last. */
  lemma LastStaysLast(order: seq<Id>, id: Id)
    requires order != [] && id != order[|order| - 1]
    ensures var rest := Without(order, id); rest != [] && rest[|rest| - 1] == order[|order| - 1]
  {
    var k := |order| - 1;
    assert order == order[..k] + [order[k]];
    WithoutAppend(order[..k], [order[k]], id);
  }

  lemma {:induction false} HitsKeepVictim(p: Policy, ids: seq<Id>, v: Id)
    requires p.Valid() && !p.Lfu? && p.Victim() == Some(v) && v !in ids
    ensures HitAll(p, ids).Victim() == Some(v)
  {
    if ids != [] {
      var k := |ids| - 1;
      HitsKeepVictim(p, ids[..k], v);
      HitsKeepIds(p, ids[..k]);
      HitsKeepKind(p, ids[..k]);
      VictimSurvives(HitAll(p, ids[..k]), Hit(ids[k]), v);
    }
  }

  lemma {:induction false} HitsKeepKind(p: Policy, ids: seq<Id>)
    ensures p.Lfu? <==> HitAll(p, ids).Lfu?
  {
    if ids != [] { HitsKeepKind(p, ids[..|ids| - 1]); }
  }

  lemma {:induction false} ServedAreStored(c: Cache, matches: seq<Id>)
    ensures forall id :: id in Served(c, matches) <==> id in matches && id in c.store
  {
    if matches != [] {
      ServedAreStored(c, matches[..|matches| - 1]);
      assert matches == matches[..|matches| - 1] + [matches[|matches| - 1]];
    }
  }

  lemma RoundKeepsOnePending(c: Cache, capacity: int, f: EvictFault)
    requires Inv(c) && capacity > 0 && OnePending(c, capacity)
    requires HalfEvicted(c) != {} ==> |c.store| > capacity
    ensures var (next, verdict) := Round(c, capacity, f);
            && OnePending(next, capacity)
            && (verdict == Stop(Done) || verdict.Again? ==> HalfEvicted(next) == {})
            && (|c.store| >= capacity ==> |next.store| >= capacity)
  {
    if !f.SizeFails? && |c.store| > capacity {
      assert c.policy.Ids() != {} by { assert |c.store| == |c.store.Keys|; }
      var v := NextVictim(c.policy);
      PendingIsVictim(c, capacity, v);
      var half := c.(store := c.store - {v});
      assert |half.store| >= capacity by { ShrinkBy(c.store, v); }
      assert OnePending(half, capacity) && OnePending(Remove(c, v), capacity);
      assert Round(c, capacity, f) ==
               if f.StoreDeleteFails? then (c, Stop(Failed))
               else if f.VectorDeleteFails? then (half, Stop(Failed))
               else (Remove(c, v), Again);
    } else {
      assert Round(c, capacity, f).0 == c;
    }
  }

  /** What a victim's removal, or its deletion from S alone, leaves half evicted. */
  lemma PendingIsVictim(c: Cache, capacity: int, v: Id)
    requires Inv(c) && OnePending(c, capacity) && c.policy.Victim() == Some(v) && v in c.policy.Ids()
    ensures HalfEvicted(Remove(c, v)) == {} && !Remove(c, v).policy.Lfu?
    ensures HalfEvicted(c.(store := c.store - {v})) == {v}
  {
    RemoveKeepsInv(c, v);
    assert HalfEvicted(c) <= {v} by { forall g | g in HalfEvicted(c) ensures g == v {} }
    HalfAfterStore(c, v);
    HalfAfterRemove(c, v);
  }

  lemma HalfAfterStore(c: Cache, v: Id)
    requires HalfEvicted(c) <= {v} && v in c.policy.Ids()
    ensures HalfEvicted(c.(store := c.store - {v})) == {v}
  {
    var half := c.(store := c.store - {v});
    forall g ensures g in HalfEvicted(half) <==> g == v {
      assert g in HalfEvicted(half) ==> g == v || g in HalfEvicted(c);
    }
  }

  lemma HalfAfterRemove(c: Cache, v: Id)
    requires HalfEvicted(c) <= {v} && Remove(c, v).policy.Ids() == c.policy.Ids() - {v}
    ensures HalfEvicted(Remove(c, v)) == {}
  {
    forall g ensures g !in HalfEvicted(Remove(c, v)) {
      assert g in HalfEvicted(Remove(c, v)) ==> g != v && g in HalfEvicted(c);
    }
  }

  lemma {:induction false} EvictKeepsOnePending(c: Cache, capacity: int, faults: seq<EvictFault>)
    requires Inv(c) && capacity > 0 && OnePending(c, capacity)
    requires HalfEvicted(c) != {} ==> |c.store| > capacity
    ensures OnePending(Evict(c, capacity, faults).0, capacity)
    ensures Evict(c, capacity, faults).1 == Done ==> HalfEvicted(Evict(c, capacity, faults).0) == {}
    ensures Evict(c, capacity, faults).1 == Done && |c.store| >= capacity ==>
              |Evict(c, capacity, faults).0.store| == capacity
    decreases |c.policy.Ids()|
  {
    RoundKeepsOnePending(c, capacity, Head(faults));
    RoundKeepsInv(c, capacity, Head(faults));
    if Round(c, capacity, Head(faults)).1.Again? {
      var v := RoundRemoves(c, capacity, Head(faults));
      EvictKeepsOnePending(Remove(c, v), capacity, Tail(faults));
    }
  }

  lemma EnforceHeals(c: Cache, capacity: int, faults: seq<EvictFault>)
    requires Inv(c) && OnePending(c, capacity) && (HalfEvicted(c) != {} ==> |c.store| > capacity)
    ensures var (r, o) := EnforceCapacity(c, capacity, faults);
            && OnePending(r, capacity)
            && (o == Done ==> r.policy.Ids() == r.store.Keys)
            && (o == Done && 0 < capacity <= |c.store| ==> |r.store| == capacity)
  {
    if capacity > 0 {
      EvictKeepsInv(c, capacity, faults);
      EvictKeepsOnePending(c, capacity, faults);
      NothingHalf(Evict(c, capacity, faults).0);
    } else {
      NothingHalf(c);
    }
  }

  /** With nothing half evicted, policy and store have the same ids. */
  lemma NothingHalf(c: Cache)
    requires Inv(c)
    ensures HalfEvicted(c) == {} <==> c.policy.Ids() == c.store.Keys
  {
    if HalfEvicted(c) == {} {
      forall id | id in c.policy.Ids() ensures id in c.store.Keys { assert id !in HalfEvicted(c); }
    }
  }

  lemma AdmitKeepsOnePending(c: Cache, capacity: int, job: Job, id: Id, now: int)
    requires Inv(c) && id !in c.vectors && OnePending(c, capacity)
    ensures OnePending(Admit(c, job, id, now), capacity)
    ensures HalfEvicted(Admit(c, job, id, now)) == HalfEvicted(c)
    ensures |Admit(c, job, id, now).store| == |c.store| + 1
  {
    var a := Admit(c, job, id, now);
    AdmitKeepsInv(c, job, id, now);
    assert |a.store| == |c.store| + 1 by { AddThenDrop(c.store, id, a.store[id]); }
    AdmitKeepsHalf(c, job, id, now);
    forall g | g in HalfEvicted(a) ensures a.policy.Victim() == Some(g) {
      VictimSurvives(c.policy, Insert(id), g);
    }
  }

  /** Self-healing: an update that completes leaves P and S in agreement, and if S was
      full, exactly full again. */
  lemma UpdateHeals(c: Cache, capacity: int, job: Job, id: Id, now: int, f: UpdateFaults)
    requires Inv(c) && id !in c.vectors && OnePending(c, capacity)
    ensures var (r, o) := Update(c, capacity, job, id, now, f);
            && OnePending(r, capacity)
            && (o == Done ==> r.policy.Ids() == r.store.Keys)
            && (o == Done && 0 < capacity <= |c.store| ==> |r.store| == capacity)
  {
    var (r, o) := Update(c, capacity, job, id, now, f);
    if f.upsert || f.save {
      assert HalfEvicted(r) == HalfEvicted(c);
    } else {
      AdmitKeepsInv(c, job, id, now);
      AdmitKeepsOnePending(c, capacity, job, id, now);
      EnforceHeals(Admit(c, job, id, now), capacity, f.evict);
    }
  }

  lemma QueryKeepsOnePending(c: Cache, capacity: int, matches: seq<Id>)
    requires Inv(c) && OnePending(c, capacity)
    ensures OnePending(Query(c, matches), capacity)
    ensures HalfEvicted(Query(c, matches)) == HalfEvicted(c)
  {
    var ids := Served(c, matches);
    HitsKeepIds(c.policy, ids);
    HitsKeepKind(c.policy, ids);
    ServedAreStored(c, matches);
    var q := Query(c, matches);
    assert q.policy.Ids() == c.policy.Ids() && q.store == c.store && !q.policy.Lfu?;
    forall g | g in HalfEvicted(q) ensures q.policy.Victim() == Some(g) && 0 < capacity <= |q.store| {
      assert g in HalfEvicted(c);
      HitsKeepVictim(c.policy, ids, g);
    }
  }

  lemma StepKeepsOnePending(c: Cache, capacity: int, op: Op)
    requires Inv(c) && Allowed(c, op) && OnePending(c, capacity)
    requires op.RestartOp? ==> !op.kind.Lfu?
    ensures OnePending(Step(c, capacity, op), capacity)
  {
    match op {
      case UpdateOp(job, id, now, f) => UpdateHeals(c, capacity, job, id, now, f);
      case QueryOp(matches) => QueryKeepsOnePending(c, capacity, matches);
      case FlushOp(_) =>
      case RestartOp(kind, l) =>
        RestartEstablishesInv(c.store, kind, l);
        InsertAllKind(kind.Flush(), IdsOf(l));
    }
  }

  lemma {:induction false} InsertAllKind(p: Policy, ids: seq<Id>)
    ensures p.Lfu? <==> InsertAll(p, ids).Lfu?
  {
    if ids != [] { InsertAllKind(p, ids[..|ids| - 1]); }
  }

  /** In every run of a service on LRU or FIFO, at most one eviction is unfinished. */
  lemma {:induction false} RunKeepsOnePending(cs: seq<Cache>, capacity: int, ops: seq<Op>, n: nat)
    requires IsRun(cs, capacity, ops) && n < |cs| && !cs[0].policy.Lfu?
    requires forall i :: 0 <= i < |ops| && ops[i].RestartOp? ==> !ops[i].kind.Lfu?
    ensures Inv(cs[n]) && OnePending(cs[n], capacity)
  {
    RunKeepsInv(cs, capacity, ops, n);
    if n == 0 {
      var kind, l :| WellKeyed(cs[0].store) && IsListing(l, cs[0].store) && cs[0] == Restart(cs[0].store, kind, l);
      RestartEstablishesInv(cs[0].store, kind, l);
      InsertAllKind(kind.Flush(), IdsOf(l));
    } else {
      RunKeepsOnePending(cs, capacity, ops, n - 1);
      StepKeepsOnePending(cs[n - 1], capacity, ops[n - 1]);
    }
  }

  /** For any policy, a completed eviction heals exactly when every unfinished id comes
      before the cut in the drain order. */
  lemma HealsIffDrainedFirst(c: Cache, capacity: int, faults: seq<EvictFault>)
    requires Inv(c) && capacity >= 0 && Evict(c, capacity, faults).1 == Done
    ensures HalfEvicted(Evict(c, capacity, faults).0) == {} <==>
              HalfEvicted(c) <= SetOf(Victims(c, capacity))
  {
    EvictRemovesShortestPrefix(c, capacity, faults);
    var gone := SetOf(Victims(c, capacity));
    var r := RemoveAll(c, Victims(c, capacity));
    assert HalfEvicted(r) == HalfEvicted(c) - gone by {
      RemoveAllContents(c, Victims(c, capacity));
      assert r.store.Keys == c.store.Keys - gone;
    }
    assert HalfEvicted(c) - gone == {} <==> HalfEvicted(c) <= gone;
  }

  /** For each of `half`, evicting all that precedes it in `drain` leaves too many of `stored`. */
  ghost predicate EachStillNeeded(half: set<Id>, stored: set<Id>, drain: seq<Id>, capacity: int) {
    forall k :: 0 <= k < |drain| && drain[k] in half ==> |stored - SetOf(drain[..k])| > capacity
  }

  /** The same before the call, for an update whose calls all succeed: it heals exactly when,
      for every half-evicted id, evicting all that precedes it in the drain order of the policy
      still leaves too many entries. */
  lemma UpdateHealsIff(c: Cache, capacity: int, job: Job, id: Id, now: int, f: UpdateFaults)
    requires Inv(c) && id !in c.vectors && capacity > 0
    requires !f.upsert && !f.save && AllSucceed(f.evict)
    ensures Admit(c, job, id, now).policy.Valid()
    ensures var a := Admit(c, job, id, now);
            HalfEvicted(Update(c, capacity, job, id, now, f).0) == {} <==>
              EachStillNeeded(HalfEvicted(c), a.store.Keys, Drain(a.policy), capacity)
  {
    var a := Admit(c, job, id, now);
    AdmitKeepsInv(c, job, id, now);
    assert HalfEvicted(a) == HalfEvicted(c) by { AdmitKeepsHalf(c, job, id, now); }
    EvictHealsIff(a, capacity, f.evict);
  }

  lemma AdmitKeepsHalf(c: Cache, job: Job, id: Id, now: int)
    requires Inv(c) && id !in c.vectors
    ensures HalfEvicted(Admit(c, job, id, now)) == HalfEvicted(c)
  {
    AdmitKeepsInv(c, job, id, now);
    forall g ensures g in HalfEvicted(Admit(c, job, id, now)) <==> g in HalfEvicted(c) {}
  }

  lemma EvictHealsIff(a: Cache, capacity: int, faults: seq<EvictFault>)
    requires Inv(a) && capacity >= 0 && AllSucceed(faults)
    ensures HalfEvicted(Evict(a, capacity, faults).0) == {} <==>
              EachStillNeeded(HalfEvicted(a), a.store.Keys, Drain(a.policy), capacity)
  {
    EvictKeepsInv(a, capacity, faults);
    HealsIffDrainedFirst(a, capacity, faults);
    DrainListsIds(a.policy);
    CutIff(HalfEvicted(a), a.store.Keys, Drain(a.policy), capacity);
  }

  /** Ids of the drain order are all cut off exactly when each stands before the cut. */
  lemma CutIff(half: set<Id>, stored: set<Id>, drain: seq<Id>, capacity: int)
    requires capacity >= 0 && NoDup(drain)
    requires (forall x :: x in half ==> x in drain) && (forall x :: x in stored ==> x in drain)
    ensures half <= SetOf(Cut(stored, drain, capacity)) <==> EachStillNeeded(half, stored, drain, capacity)
  {
    var cut := Cut(stored, drain, capacity);
    assert stored <= SetOf(drain) by {
      forall x | x in stored ensures x in SetOf(drain) { InSetOf(drain, x); }
    }
    forall k | 0 <= k < |drain| ensures drain[k] in SetOf(cut) <==> |stored - SetOf(drain[..k])| > capacity {
      InCutIff(stored, drain, capacity, k);
    }
    if EachStillNeeded(half, stored, drain, capacity) {
      forall x | x in half ensures x in SetOf(cut) {
        var k :| 0 <= k < |drain| && drain[k] == x;
      }
    }
  }

  lemma InCutIff(stored: set<Id>, drain: seq<Id>, capacity: int, k: nat)
    requires stored <= SetOf(drain) && capacity >= 0 && NoDup(drain) && k < |drain|
    ensures drain[k] in SetOf(Cut(stored, drain, capacity)) <==> |stored - SetOf(drain[..k])| > capacity
  {
    var cut := Cut(stored, drain, capacity);
    CutIsShortest(stored, drain, capacity);
    InSetOf(cut, drain[k]);
    if k < |cut| {
      PrefixBeforeCut(cut, drain, k);
    } else {
      NotBefore(cut, drain, k);
      LongerLeavesLess(stored, cut, drain[..k]);
    }
  }

  lemma PrefixBeforeCut(cut: seq<Id>, drain: seq<Id>, k: nat)
    requires cut <= drain && k < |cut|
    ensures drain[k] in cut && drain[..k] < cut
  {
    assert drain[..k] == cut[..k] && drain[k] == cut[k];
  }

  lemma NotBefore(cut: seq<Id>, drain: seq<Id>, k: nat)
    requires cut <= drain && NoDup(drain) && |cut| <= k < |drain|
    ensures drain[k] !in cut && cut <= drain[..k]
  {
    assert forall i :: 0 <= i < |cut| ==> cut[i] == drain[i];
  }

  lemma LongerLeavesLess(stored: set<Id>, p: seq<Id>, q: seq<Id>)
    requires p <= q
    ensures |stored - SetOf(q)| <= |stored - SetOf(p)|
  {
    forall x | x in SetOf(p) ensures x in SetOf(q) {
      InSetOf(p, x);
      InSetOf(q, x);
    }
    SubsetSize(stored - SetOf(q), stored - SetOf(p));
  }

  lemma SubsetSize(a: set<Id>, b: set<Id>)
    requires a <= b
    ensures |a| <= |b|
  {
    assert |b| == |a| + |b - a| by { assert b == a + (b - a); }
  }

  // ---- conservation ---------------------------------------------------------------------------------

  /** Ids rebuilt at the last start plus ids inserted, counted since the last flush. */
  ghost function Admitted(rebuilt: nat, ops: seq<Op>): nat {
    if ops == [] then rebuilt else AdmittedBy(Admitted(rebuilt, ops[..|ops| - 1]), ops[|ops| - 1])
  }

  ghost function AdmittedBy(before: nat, op: Op): nat {
    match op
    case UpdateOp(_, _, _, f) => if f.upsert || f.save then before else before + 1
    case QueryOp(_) => before
    case FlushOp(vectorFails) => if vectorFails then before else 0
    case RestartOp(_, l) => |l|
  }

  lemma {:induction false} EvictConserves(c: Cache, capacity: int, faults: seq<EvictFault>)
    requires Inv(c) && capacity >= 0
    ensures Tally(Evict(c, capacity, faults).0) == Tally(c)
    decreases |c.policy.Ids()|
  {
    RoundKeepsInv(c, capacity, Head(faults));
    RoundConserves(c, capacity, Head(faults));
    var (next, verdict) := Round(c, capacity, Head(faults));
    if verdict.Again? {
      RoundShrinks(c, capacity, Head(faults));
      EvictConserves(next, capacity, Tail(faults));
    }
  }

  /** Ids tracked and evictions counted. */
  ghost function Tally(c: Cache): int {
    |c.policy.Ids()| + c.evictions
  }

  lemma StoppedRound(c: Cache, capacity: int, f: EvictFault)
    requires Round(c, capacity, f).1.Stop?
    ensures Round(c, capacity, f).0.policy == c.policy && Round(c, capacity, f).0.evictions == c.evictions
  {}

  lemma RoundConserves(c: Cache, capacity: int, f: EvictFault)
    requires Inv(c) && capacity >= 0
    ensures Tally(Round(c, capacity, f).0) == Tally(c)
  {
    var (next, verdict) := Round(c, capacity, f);
    if verdict.Again? {
      var v := RoundRemoves(c, capacity, f);
      assert next == Remove(c, v) && next.evictions == c.evictions + 1;
    } else {
      StoppedRound(c, capacity, f);
    }
  }

  lemma UpdateConserves(c: Cache, capacity: int, job: Job, id: Id, now: int, f: UpdateFaults)
    requires Inv(c) && id !in c.vectors
    ensures Tally(Update(c, capacity, job, id, now, f).0) == Tally(c) + if f.upsert || f.save then 0 else 1
  {
    if !f.upsert && !f.save {
      AdmitKeepsInv(c, job, id, now);
      if capacity > 0 { EvictConserves(Admit(c, job, id, now), capacity, f.evict); }
    }
  }

  lemma StepConserves(c: Cache, capacity: int, op: Op)
    requires Inv(c) && Allowed(c, op)
    ensures Tally(Step(c, capacity, op)) == AdmittedBy(Tally(c), op)
  {
    match op {
      case UpdateOp(job, id, now, f) => UpdateConserves(c, capacity, job, id, now, f);
      case QueryOp(matches) => HitsKeepIds(c.policy, Served(c, matches));
      case FlushOp(_) =>
      case RestartOp(kind, l) =>
        RestartEstablishesInv(c.store, kind, l);
        assert |c.store| == |c.store.Keys|;
    }
  }

  /** |P| + evictions = ids rebuilt + ids inserted since the last flush, in every run. */
  lemma {:induction false} RunConserves(cs: seq<Cache>, capacity: int, ops: seq<Op>, n: nat)
    requires IsRun(cs, capacity, ops) && n < |cs|
    ensures |cs[n].policy.Ids()| + cs[n].evictions == Admitted(|cs[0].store|, ops[..n])
  {
    RunKeepsInv(cs, capacity, ops, n);
    if n == 0 {
      var kind, l :| WellKeyed(cs[0].store) && IsListing(l, cs[0].store) && cs[0] == Restart(cs[0].store, kind, l);
      RestartEstablishesInv(cs[0].store, kind, l);
      assert |cs[0].store| == |cs[0].store.Keys|;
    } else {
      RunConserves(cs, capacity, ops, n - 1);
      RunKeepsInv(cs, capacity, ops, n - 1);
      assert ops[..n][..n - 1] == ops[..n - 1];
      StepConserves(cs[n - 1], capacity, ops[n - 1]);
    }
  }

  // ---- LFU does not always heal ---------------------------------------------------------------------

  /** Every tracked id has been hit since it was inserted. */
  ghost predicate AllHit(p: Policy) {
    p.Lfu? && forall id :: id in p.entries ==> p.entries[id].count >= 2
  }

  lemma NewcomerIsVictim(p: Policy, id: Id)
    requires p.Valid() && AllHit(p) && id !in p.Ids()
    ensures var q := p.OnInsert(id);
            && q.Victim() == Some(id) && q.OnDelete(id).Valid() && q.OnDelete(id).Ids() == p.Ids()
  {
    var q := p.OnInsert(id);
    HooksKeepValid(p, Insert(id));
    HooksKeepValid(q, Delete(id));
    assert q.Victim() == Some(id) by {
      assert forall u :: u in q.entries && u != id ==> Precedes(q.entries[id], q.entries[u]);
      assert q.IsVictim(id);
      VictimCharacterized(q);
    }
  }

  /** With S full and every tracked id hit, an update whose calls all succeed evicts the
      entry it has just inserted and nothing else: an unfinished eviction stays unfinished. */
  lemma LfuOvertakes(c: Cache, capacity: int, job: Job, id: Id, now: int, f: UpdateFaults)
    requires Inv(c) && AllHit(c.policy) && id !in c.vectors && |c.store| == capacity > 0
    requires !f.upsert && !f.save && AllSucceed(f.evict)
    ensures var (r, o) := Update(c, capacity, job, id, now, f);
            && o == Done && r.store == c.store && r.vectors == c.vectors
            && HalfEvicted(r) == HalfEvicted(c) && r.evictions == c.evictions + 1
  {
    var a := Admit(c, job, id, now);
    var r := Remove(a, id);
    NewcomerRounds(c, capacity, job, id, now);
    HeadsSucceed(f.evict);
    TwoRounds(a, r, r, Done, capacity, f.evict);
    SameHalf(c, r);
  }

  /** The first round takes the newcomer out again, and the second one stops. */
  lemma NewcomerRounds(c: Cache, capacity: int, job: Job, id: Id, now: int)
    requires Inv(c) && AllHit(c.policy) && id !in c.vectors && |c.store| == capacity > 0
    ensures var a := Admit(c, job, id, now);
            var r := Remove(a, id);
            && a.policy.Valid() && r.policy.Valid() && r.policy.Ids() == c.policy.Ids()
            && r.store == c.store && r.vectors == c.vectors && r.evictions == c.evictions + 1
            && Round(a, capacity, NoFault) == (r, Again) && Round(r, capacity, NoFault) == (r, Stop(Done))
  {
    NewcomerIsVictim(c.policy, id);
    AdmitThenRemove(c, job, id, now);
    RoundEvicts(Admit(c, job, id, now), capacity, id);
  }

  lemma HeadsSucceed(faults: seq<EvictFault>)
    requires AllSucceed(faults)
    ensures Head(faults) == NoFault && Head(Tail(faults)) == NoFault
  {
    if faults != [] { assert faults[0] in faults; }
    if |faults| > 1 { assert faults[1] in faults; }
  }

  lemma SameHalf(c: Cache, d: Cache)
    requires d.policy.Ids() == c.policy.Ids() && d.store == c.store
    ensures HalfEvicted(d) == HalfEvicted(c)
  {}

  lemma RoundEvicts(s: Cache, capacity: int, v: Id)
    requires |s.store| > capacity && s.policy.Victim() == Some(v) && v in s.vectors
    ensures Round(s, capacity, NoFault) == (Remove(s, v), Again)
  {}

  lemma AdmitThenRemove(c: Cache, job: Job, id: Id, now: int)
    requires Inv(c) && id !in c.vectors
    ensures var a := Admit(c, job, id, now);
            a.policy.Valid() && |a.store| == |c.store| + 1
            && Remove(a, id).store == c.store && Remove(a, id).vectors == c.vectors
  {
    HooksKeepValid(c.policy, Insert(id));
    assert id !in c.store.Keys;
    AddThenDrop(c.store, id, Entry(id, job.prompt, job.reply, job.vector, now));
    AddThenDrop(c.vectors, id, job.vector);
  }

  lemma AddThenDrop<K, T>(m: map<K, T>, k: K, v: T)
    requires k !in m
    ensures m[k := v] - {k} == m && |m[k := v]| == |m| + 1
  {
    assert m[k := v].Keys == m.Keys + {k};
    assert |m| == |m.Keys| && |m[k := v]| == |m[k := v].Keys|;
  }

  /** An eviction that ends in its second round. */
  lemma TwoRounds(a: Cache, r: Cache, t: Cache, o: Outcome, capacity: int, faults: seq<EvictFault>)
    requires a.policy.Valid() && r.policy.Valid()
    requires Round(a, capacity, Head(faults)) == (r, Again)
    requires Round(r, capacity, Head(Tail(faults))) == (t, Stop(o))
    ensures Evict(a, capacity, faults) == (t, o)
  {
    assert Evict(r, capacity, Tail(faults)) == (t, o);
  }
}
