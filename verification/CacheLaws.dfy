/** What the cache's operations amount to, said of their inputs and results alone: which calls
    are reported as failed, what every failure leaves behind, and, over whole runs, exactly
    which ids the index holds and what the store holds under each of them. */
module CacheLaws {
  import opened Entries
  import opened Policies
  import opened CacheEngine
  import opened Service

  // ---- eviction, however it ends ----------------------------------------------------------------

  function FaultAt(faults: seq<EvictFault>, k: nat): EvictFault {
    if k < |faults| then faults[k] else NoFault
  }

  /** The rounds that went through removed `gone`; in the next one, with fault `f`, the loop
      stopped. Only a vector that could not be deleted leaves a trace: its entry is gone. */
  ghost predicate StoppedAfter(c: Cache, capacity: int, gone: seq<Id>, f: EvictFault, r: Cache, o: Outcome)
    requires c.policy.Valid()
  {
    var drain, m := Drain(c.policy), RemoveAll(c, gone);
    && gone <= drain
    && if f.SizeFails? then r == m && o == Failed
       else if |m.store| <= capacity then r == m && o == Done
       else if f.StoreDeleteFails? then r == m && o == Failed
       else
         && f.VectorDeleteFails? && |gone| < |drain|
         && r == m.(store := m.store - {drain[|gone|]}) && o == Failed
  }

  /** Before each of `gone` was removed the store was over capacity, and nothing failed. */
  ghost predicate WentOn(c: Cache, capacity: int, gone: seq<Id>, faults: seq<EvictFault>) {
    forall k :: 0 <= k < |gone| ==> FaultAt(faults, k).NoFault? && |RemoveAll(c, gone[..k]).store| > capacity
  }

  /** Every eviction, whatever fails, takes a prefix of the drain order out of all three places
      and then stops in one of those ways; it goes on only while the store is over capacity
      and nothing fails. */
  lemma {:induction false} EvictionStops(c: Cache, capacity: int, faults: seq<EvictFault>) returns (gone: seq<Id>)
    requires Inv(c) && capacity >= 0
    ensures var (r, o) := Evict(c, capacity, faults);
            StoppedAfter(c, capacity, gone, FaultAt(faults, |gone|), r, o)
    ensures WentOn(c, capacity, gone, faults)
    decreases |c.policy.Ids()|
  {
    var (next, verdict) := Round(c, capacity, Head(faults));
    if verdict.Again? {
      var v := RoundRemoves(c, capacity, Head(faults));
      RoundShrinks(c, capacity, Head(faults));
      RoundGoesOn(c, capacity, Head(faults));
      var rest := EvictionStops(next, capacity, Tail(faults));
      gone := [v] + rest;
      StopsLater(c, capacity, v, rest, faults, Evict(c, capacity, faults).0, Evict(c, capacity, faults).1);
      WentOnLonger(c, capacity, v, rest, faults);
    } else {
      gone := [];
      RoundStops(c, capacity, Head(faults));
    }
  }

  lemma WentOnLonger(c: Cache, capacity: int, v: Id, rest: seq<Id>, faults: seq<EvictFault>)
    requires WentOn(Remove(c, v), capacity, rest, Tail(faults)) && Head(faults).NoFault? && |c.store| > capacity
    ensures WentOn(c, capacity, [v] + rest, faults)
  {
    forall k | 0 <= k < |rest| + 1
      ensures FaultAt(faults, k).NoFault? && |RemoveAll(c, ([v] + rest)[..k]).store| > capacity
    {
      if k > 0 {
        PastFirst(c, v, rest, k - 1);
        assert FaultAt(faults, k) == FaultAt(Tail(faults), k - 1);
      }
    }
  }

  lemma PastFirst(c: Cache, v: Id, rest: seq<Id>, k: nat)
    requires k <= |rest|
    ensures RemoveAll(c, ([v] + rest)[..k + 1]) == RemoveAll(Remove(c, v), rest[..k])
  {
    var ids := ([v] + rest)[..k + 1];
    assert ids == [v] + rest[..k] && ids[1..] == rest[..k];
  }

  /** Where an eviction of `c` stops after its first round, which removed `v`. */
  lemma StopsLater(c: Cache, capacity: int, v: Id, rest: seq<Id>, faults: seq<EvictFault>, r: Cache, o: Outcome)
    requires c.policy.Valid() && c.policy.Victim() == Some(v) && Remove(c, v).policy.Valid()
    requires StoppedAfter(Remove(c, v), capacity, rest, FaultAt(Tail(faults), |rest|), r, o)
    ensures StoppedAfter(c, capacity, [v] + rest, FaultAt(faults, |rest| + 1), r, o)
  {
    DrainStep(c.policy, v);
    PastFirst(c, v, rest, |rest|);
    assert ([v] + rest)[..|rest| + 1] == [v] + rest && rest[..|rest|] == rest;
    assert FaultAt(faults, |rest| + 1) == FaultAt(Tail(faults), |rest|);
    LongerPrefix(v, rest, Drain(Remove(c, v).policy));
  }

  lemma LongerPrefix(v: Id, rest: seq<Id>, drain: seq<Id>)
    requires rest <= drain
    ensures [v] + rest <= [v] + drain
    ensures |rest| < |drain| ==> ([v] + drain)[|rest| + 1] == drain[|rest|]
  {}

  lemma RoundGoesOn(c: Cache, capacity: int, f: EvictFault)
    requires Inv(c) && capacity >= 0 && Round(c, capacity, f).1.Again?
    ensures f.NoFault? && |c.store| > capacity
  {}

  lemma RoundStops(c: Cache, capacity: int, f: EvictFault)
    requires Inv(c) && capacity >= 0 && Round(c, capacity, f).1.Stop?
    ensures StoppedAfter(c, capacity, [], f, Round(c, capacity, f).0, Round(c, capacity, f).1.outcome)
  {
    if !f.SizeFails? && |c.store| > capacity {
      assert c.policy.Ids() != {} by { assert |c.store| == |c.store.Keys|; }
      var v := NextVictim(c.policy);
      DrainStep(c.policy, v);
    }
  }

  // ---- one update ---------------------------------------------------------------------------------

  /** An update whose upsert fails changes nothing. One whose save fails leaves the id in the
      index exactly if the delete that should undo the upsert fails too, and nothing else. One
      that saves its entry and tells the policy has stored exactly what it was given, and then
      differs from that only by an eviction, which without a capacity never happens. */
  lemma UpdateMeans(c: Cache, capacity: int, job: Job, id: Id, now: int, f: UpdateFaults)
    requires Inv(c) && id !in c.vectors
    ensures var (r, o) := Update(c, capacity, job, id, now, f);
            && (f.upsert ==> r == c && o == Failed)
            && (!f.upsert && f.save ==>
                  && o == Failed && r.store == c.store && r.policy == c.policy && r.evictions == c.evictions
                  && r.vectors == if f.compensate then c.vectors[id := job.vector] else c.vectors)
            && (!f.upsert && !f.save ==>
                  var a := Cache(c.vectors[id := job.vector],
                                 c.store[id := Entry(id, job.prompt, job.reply, job.vector, now)],
                                 Run(c.policy, [Insert(id)]), c.evictions);
                  && a.policy.Valid()
                  && (capacity <= 0 ==> r == a && o == Done)
                  && (capacity > 0 ==> exists gone ::
                        StoppedAfter(a, capacity, gone, FaultAt(f.evict, |gone|), r, o)))
  {
    if !f.upsert && f.save && !f.compensate {
      assert c.vectors[id := job.vector] - {id} == c.vectors;
    } else if !f.upsert && !f.save {
      AdmitKeepsInv(c, job, id, now);
      OneInsert(c.policy, id);
      if capacity > 0 {
        var gone := EvictionStops(Admit(c, job, id, now), capacity, f.evict);
      }
    }
  }

  lemma OneInsert(p: Policy, id: Id)
    ensures Run(p, [Insert(id)]) == p.OnInsert(id)
  {
    assert [Insert(id)][..0] == [];
  }

  // ---- queries and flushes ----------------------------------------------------------------------------

  /** The hits that serving `ids` makes. */
  function HitsOn(ids: seq<Id>): (h: seq<Event>)
    ensures |h| == |ids| && forall i :: 0 <= i < |h| ==> h[i] == Hit(ids[i])
  {
    seq(|ids|, i requires 0 <= i < |ids| => Hit(ids[i]))
  }

  /** `at` are the positions in `s`, in order, of exactly the ids that are in `store`. */
  ghost predicate Picks(s: seq<Id>, store: map<Id, Entry>, at: seq<nat>) {
    && (forall i, j :: 0 <= i < j < |at| ==> at[i] < at[j])
    && (forall i :: 0 <= i < |at| ==> at[i] < |s| && s[at[i]] in store)
    && forall k :: 0 <= k < |s| && s[k] in store ==> k in at
  }

  /** A query answers with the stored entries of its matches, in their order, and what it does to
      the policy is one hit on each of them, in that order; it touches nothing else. */
  lemma {:induction false} QueryMeans(c: Cache, matches: seq<Id>) returns (at: seq<nat>)
    ensures Picks(matches, c.store, at) && |Found(c.store, matches)| == |at|
    ensures forall i :: 0 <= i < |at| ==> Found(c.store, matches)[i] == c.store[matches[at[i]]]
    ensures var hits := seq(|at|, i requires 0 <= i < |at| => matches[at[i]]);
            Query(c, matches) == c.(policy := Run(c.policy, HitsOn(hits)))
  {
    var ids := Served(c, matches);
    at := ServedAt(c, matches);
    HitAllRuns(c.policy, ids);
    assert seq(|at|, i requires 0 <= i < |at| => matches[at[i]]) == ids;
  }

  lemma {:induction false} ServedAt(c: Cache, matches: seq<Id>) returns (at: seq<nat>)
    ensures Picks(matches, c.store, at)
    ensures |at| == |Served(c, matches)| == |Found(c.store, matches)|
    ensures forall i :: 0 <= i < |at| ==>
              matches[at[i]] == Served(c, matches)[i] && Found(c.store, matches)[i] == c.store[matches[at[i]]]
  {
    at := [];
    if matches != [] {
      var n := |matches| - 1;
      at := ServedAt(c, matches[..n]);
      forall k | 0 <= k < n && matches[k] in c.store ensures k in at { assert matches[..n][k] == matches[k]; }
      if matches[n] in c.store { at := at + [n]; }
    }
  }

  lemma {:induction false} HitAllRuns(p: Policy, ids: seq<Id>)
    ensures HitAll(p, ids) == Run(p, HitsOn(ids))
  {
    if ids != [] {
      var n := |ids| - 1;
      HitAllRuns(p, ids[..n]);
      assert HitsOn(ids)[..n] == HitsOn(ids[..n]);
    }
  }

  /** A flush that gets past the index leaves it empty, with a policy that tracks nothing and a
      counter that starts over; the store is empty too unless its own flush fails. */
  lemma FlushMeans(c: Cache, vectorFails: bool, storeFails: bool)
    ensures var (r, o) := Flush(c, vectorFails, storeFails);
            && (o == Failed <==> vectorFails) && (vectorFails ==> r == c)
            && (!vectorFails ==>
                  && o == Done && r.vectors == map[] && r.policy.Ids() == {} && r.evictions == 0
                  && r.policy == Run(c.policy, [FlushAll])
                  && r.store == if storeFails then c.store else map[])
  {
    assert [FlushAll][..0] == [];
  }

  /** A restarted policy evicts in the order of the replay. */
  lemma RestartDrainsInOrder(store: map<Id, Entry>, kind: Policy, l: seq<Entry>)
    requires WellKeyed(store) && IsListing(l, store)
    ensures var r := Restart(store, kind, l);
            && r.store == store && r.policy.Valid() && Drain(r.policy) == IdsOf(l)
            && r.vectors.Keys == store.Keys && forall id :: id in store ==> r.vectors[id] == store[id].vector
  {
    DistinctIdsNoDup(l);
    ReplayDrainsInOrder(kind, IdsOf(l));
  }

  // ---- runs: what the index holds ------------------------------------------------------------------------

  /** Ids whose entry could not be saved and whose vector could not be taken back, since the index
      was last emptied or rebuilt. */
  ghost function Orphans(ops: seq<Op>): set<Id> {
    if ops == [] then {} else OrphansAfter(Orphans(ops[..|ops| - 1]), ops[|ops| - 1])
  }

  ghost function OrphansAfter(before: set<Id>, op: Op): set<Id> {
    match op
    case UpdateOp(_, id, _, f) => if !f.upsert && f.save && f.compensate then before + {id} else before
    case QueryOp(_) => before
    case FlushOp(vectorFails) => if vectorFails then before else {}
    case RestartOp(_, _) => {}
  }

  ghost predicate IndexIs(c: Cache, orphans: set<Id>) {
    c.vectors.Keys == c.policy.Ids() + orphans && c.policy.Ids() !! orphans
  }

  /** In every state of every run the index holds the ids of the policy and the orphans, which the
      policy does not know, and no other id. */
  lemma {:induction false} RunIndexIsExact(cs: seq<Cache>, capacity: int, ops: seq<Op>, n: nat)
    requires IsRun(cs, capacity, ops) && n < |cs|
    ensures cs[n].vectors.Keys == cs[n].policy.Ids() + Orphans(ops[..n])
    ensures cs[n].policy.Ids() !! Orphans(ops[..n])
  {
    RunKeepsInv(cs, capacity, ops, n);
    if n == 0 {
      var kind, l :| WellKeyed(cs[0].store) && IsListing(l, cs[0].store) && cs[0] == Restart(cs[0].store, kind, l);
      RestartEstablishesInv(cs[0].store, kind, l);
    } else {
      RunIndexIsExact(cs, capacity, ops, n - 1);
      RunKeepsInv(cs, capacity, ops, n - 1);
      assert ops[..n][..n - 1] == ops[..n - 1];
      StepIndexIsExact(cs[n - 1], capacity, ops[n - 1], Orphans(ops[..n - 1]));
    }
  }

  /** So an id gets into the index and stays unknown to the policy only by such a double failure. */
  lemma RunIndexIsPolicy(cs: seq<Cache>, capacity: int, ops: seq<Op>, n: nat)
    requires IsRun(cs, capacity, ops) && n < |cs|
    requires forall i :: 0 <= i < n && ops[i].UpdateOp? ==> !(ops[i].faults.save && ops[i].faults.compensate)
    ensures cs[n].vectors.Keys == cs[n].policy.Ids()
  {
    RunIndexIsExact(cs, capacity, ops, n);
    NoOrphans(ops[..n]);
  }

  lemma {:induction false} NoOrphans(ops: seq<Op>)
    requires forall i :: 0 <= i < |ops| && ops[i].UpdateOp? ==> !(ops[i].faults.save && ops[i].faults.compensate)
    ensures Orphans(ops) == {}
  {
    if ops != [] { NoOrphans(ops[..|ops| - 1]); }
  }

  lemma StepIndexIsExact(c: Cache, capacity: int, op: Op, orphans: set<Id>)
    requires Inv(c) && Allowed(c, op) && IndexIs(c, orphans)
    ensures IndexIs(Step(c, capacity, op), OrphansAfter(orphans, op))
  {
    match op {
      case UpdateOp(job, id, now, f) => UpdateIndexIsExact(c, capacity, job, id, now, f, orphans);
      case QueryOp(matches) => HitsKeepIds(c.policy, Served(c, matches));
      case FlushOp(vectorFails) =>
      case RestartOp(kind, l) => RestartEstablishesInv(c.store, kind, l);
    }
  }

  lemma UpdateIndexIsExact(c: Cache, capacity: int, job: Job, id: Id, now: int, f: UpdateFaults, orphans: set<Id>)
    requires Inv(c) && id !in c.vectors && IndexIs(c, orphans)
    ensures IndexIs(Update(c, capacity, job, id, now, f).0, OrphansAfter(orphans, UpdateOp(job, id, now, f)))
  {
    if !f.upsert && !f.save {
      AdmitKeepsInv(c, job, id, now);
      if capacity > 0 { EvictIndexIsExact(Admit(c, job, id, now), capacity, f.evict, orphans); }
    }
  }

  lemma {:induction false} EvictIndexIsExact(c: Cache, capacity: int, faults: seq<EvictFault>, orphans: set<Id>)
    requires Inv(c) && capacity >= 0 && IndexIs(c, orphans)
    ensures IndexIs(Evict(c, capacity, faults).0, orphans)
    decreases |c.policy.Ids()|
  {
    var (next, verdict) := Round(c, capacity, Head(faults));
    if verdict.Again? {
      var v := RoundRemoves(c, capacity, Head(faults));
      RoundShrinks(c, capacity, Head(faults));
      RemoveKeepsIndex(c, v, orphans);
      EvictIndexIsExact(next, capacity, Tail(faults), orphans);
    } else {
      StoppedLeavesIndex(c, capacity, Head(faults));
    }
  }

  lemma RemoveKeepsIndex(c: Cache, v: Id, orphans: set<Id>)
    requires IndexIs(c, orphans) && v in c.policy.Ids() && Remove(c, v).policy.Ids() == c.policy.Ids() - {v}
    ensures IndexIs(Remove(c, v), orphans)
  {
    assert Remove(c, v).vectors.Keys == c.vectors.Keys - {v};
  }

  lemma StoppedLeavesIndex(c: Cache, capacity: int, f: EvictFault)
    requires Round(c, capacity, f).1.Stop?
    ensures Round(c, capacity, f).0.vectors == c.vectors && Round(c, capacity, f).0.policy == c.policy
  {}

  // ---- runs: what the store holds ----------------------------------------------------------------------------

  /** The entry that the update `op` was asked to store. */
  ghost predicate Asked(op: Op, e: Entry) {
    && op.UpdateOp? && e.id == op.id && e.prompt == op.job.prompt && e.reply == op.job.reply
    && e.vector == op.job.vector && e.createdAt == op.now
  }

  /** Whatever is in the store at the end of a run was there at the start, or is word for word
      what one of its updates, which saved it, was asked to store. */
  lemma {:induction false} RunStoresWhatWasAsked(cs: seq<Cache>, capacity: int, ops: seq<Op>, n: nat, id: Id)
    requires IsRun(cs, capacity, ops) && n < |cs| && id in cs[n].store
    ensures || (id in cs[0].store && cs[n].store[id] == cs[0].store[id])
            || exists i :: 0 <= i < n && Asked(ops[i], cs[n].store[id]) && !ops[i].faults.upsert && !ops[i].faults.save
  {
    if n > 0 {
      RunKeepsInv(cs, capacity, ops, n - 1);
      var c, op := cs[n - 1], ops[n - 1];
      StepStores(c, capacity, op, id);
      if id in c.store && cs[n].store[id] == c.store[id] { RunStoresWhatWasAsked(cs, capacity, ops, n - 1, id); }
    }
  }

  lemma StepStores(c: Cache, capacity: int, op: Op, id: Id)
    requires Inv(c) && Allowed(c, op) && id in Step(c, capacity, op).store
    ensures var e := Step(c, capacity, op).store[id];
            || (id in c.store && e == c.store[id])
            || (Asked(op, e) && !op.faults.upsert && !op.faults.save)
  {
    if op.UpdateOp? && !op.faults.upsert && !op.faults.save {
      AdmitKeepsInv(c, op.job, op.id, op.now);
      if capacity > 0 { EvictOnlyDrops(Admit(c, op.job, op.id, op.now), capacity, op.faults.evict); }
    }
  }

  lemma {:induction false} EvictOnlyDrops(c: Cache, capacity: int, faults: seq<EvictFault>)
    requires Inv(c) && capacity >= 0
    ensures var r := Evict(c, capacity, faults).0;
            forall id :: id in r.store ==> id in c.store && r.store[id] == c.store[id]
    decreases |c.policy.Ids()|
  {
    var (next, verdict) := Round(c, capacity, Head(faults));
    if verdict.Again? {
      var v := RoundRemoves(c, capacity, Head(faults));
      RoundShrinks(c, capacity, Head(faults));
      EvictOnlyDrops(next, capacity, Tail(faults));
    }
  }
}
