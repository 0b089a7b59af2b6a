/** The orchestrator's cache methods over real policy objects, each proved equal to the
    corresponding operation of module CacheEngine. The `faults` parameters say which
    backend calls fail; ids and times come from outside. */
module Service {
  import opened Entries
  import opened Policies
  import opened PolicyObjects
  import opened CacheEngine

  predicate OldestFirst(order: seq<Entry>) {
    forall i, j :: 0 <= i < j < |order| ==> order[i].createdAt <= order[j].createdAt
  }

  lemma InsertedByTime(s: seq<Entry>, k: nat, e: Entry)
    requires OldestFirst(s) && k <= |s| && forall j :: 0 <= j < k ==> s[j].createdAt <= e.createdAt
    requires k < |s| ==> e.createdAt < s[k].createdAt
    ensures OldestFirst(s[..k] + [e] + s[k..])
    ensures multiset(s[..k] + [e] + s[k..]) == multiset(s) + multiset{e}
  {
    InsertedOnce(s, k, e);
    InsertedInOrder(s, k, e);
  }

  lemma InsertedOnce(s: seq<Entry>, k: nat, e: Entry)
    requires k <= |s|
    ensures multiset(s[..k] + [e] + s[k..]) == multiset(s) + multiset{e}
  {
    assert s == s[..k] + s[k..];
  }

  lemma InsertedInOrder(s: seq<Entry>, k: nat, e: Entry)
    requires OldestFirst(s) && k <= |s| && forall j :: 0 <= j < k ==> s[j].createdAt <= e.createdAt
    requires k < |s| ==> e.createdAt < s[k].createdAt
    ensures OldestFirst(s[..k] + [e] + s[k..])
  {
    var r := s[..k] + [e] + s[k..];
    forall i, j | 0 <= i < j < |r| ensures r[i].createdAt <= r[j].createdAt {
      assert j > k ==> r[j] == s[j - 1];
      if k < |s| && j > k { assert s[k].createdAt <= s[j - 1].createdAt; }
    }
  }

  /** The entries of the persisted matches, in the order of the matches. */
  function Found(store: map<Id, Entry>, matches: seq<Id>): seq<Entry> {
    if matches == [] then []
    else
      var id := matches[|matches| - 1];
      Found(store, matches[..|matches| - 1]) + if id in store then [store[id]] else []
  }

  /** What a query answers with and what it touches in the policy are the same entries. */
  lemma {:induction false} FoundAreServed(c: Cache, matches: seq<Id>)
    requires WellKeyed(c.store)
    ensures IdsOf(Found(c.store, matches)) == Served(c, matches)
    ensures forall e :: e in Found(c.store, matches) <==> e.id in matches && e.id in c.store && c.store[e.id] == e
  {
    if matches != [] {
      var before, id := matches[..|matches| - 1], matches[|matches| - 1];
      FoundAreServed(c, before);
      assert matches == before + [id];
    }
  }

  lemma ServeOneMore(c: Cache, matches: seq<Id>, i: nat)
    requires i < |matches|
    ensures var before, id := matches[..i], matches[i];
            && Found(c.store, matches[..i + 1])
                == Found(c.store, before) + (if id in c.store then [c.store[id]] else [])
            && Served(c, matches[..i + 1]) == Served(c, before) + (if id in c.store then [id] else [])
            && Query(c, matches[..i + 1]) == if id in c.store then c.(policy := Query(c, before).policy.OnHit(id))
                else Query(c, before)
  {
    var before, id := matches[..i], matches[i];
    assert matches[..i + 1][..i] == before;
    var served := Served(c, before);
    if id in c.store {
      assert (served + [id])[..|served|] == served;
    } else {
      assert served + [] == served;
    }
  }

  class CacheService {
    const capacity: int
    const policy: ActivePolicy
    var vectors: map<Id, Vector>
    var store: map<Id, Entry>
    var evictions: nat

    ghost predicate Valid()
      reads this, policy.Object()
    {
      policy.Object() != this && policy.Valid()
    }

    ghost function State(): Cache
      reads this, policy.Object()
    {
      Cache(vectors, store, policy.Model(), evictions)
    }

    constructor (capacity: int, policy: ActivePolicy, store: map<Id, Entry>, vectors: map<Id, Vector>)
      requires policy.Valid()
      ensures Valid() && this.capacity == capacity && this.policy == policy
      ensures State() == Cache(vectors, store, policy.Model(), 0)
    {
      this.capacity, this.policy, this.store, this.vectors, this.evictions := capacity, policy, store, vectors, 0;
    }

    /** List the persisted entries, sort them by creation time, replay them into the policy and
        rebuild the index from them, retrying the rebuild once per element of `attempts` (true
        means it works). */
    method RebuildFromStore(listing: seq<Entry>, attempts: seq<bool>) returns (ok: bool, ghost order: seq<Entry>)
      requires Valid() && WellKeyed(store) && IsListing(listing, store)
      modifies this, policy.Object()
      ensures Valid() && store == old(store) && evictions == old(evictions)
      ensures IsListing(order, store) && OldestFirst(order)
      ensures policy.Model() == InsertAll(old(policy.Model()), IdsOf(order))
      ensures ok <==> true in attempts
      ensures vectors == if ok then VectorsOf(store) else old(vectors)
      // what a run of the cache calls a restart
      ensures ok && old(policy.Model()) == old(policy.Model()).Flush() && evictions == 0 ==>
                State() == Restart(store, old(policy.Model()), order)
    {
      var entries := SortByTime(listing);
      order := entries;
      RearrangedListing(listing, entries, store);
      var rebuildEntries := ReplayEntries(entries);
      RebuildMapOfListing(entries, store);
      ok := RebuildVectorStoreWithRetry(rebuildEntries, attempts);
    }

    /** `sort.Slice` by creation time: entries of the same time may come in any order. */
    static method SortByTime(entries: seq<Entry>) returns (sorted: seq<Entry>)
      ensures multiset(sorted) == multiset(entries) && OldestFirst(sorted)
    {
      sorted := [];
      for i := 0 to |entries|
        invariant multiset(sorted) == multiset(entries[..i]) && OldestFirst(sorted)
      {
        sorted := InsertByTime(sorted, entries[i]);
        assert multiset(entries[..i + 1]) == multiset(entries[..i]) + multiset{entries[i]} by {
          assert entries[..i + 1] == entries[..i] + [entries[i]];
        }
      }
      assert entries[..|entries|] == entries;
    }

    static method InsertByTime(sorted: seq<Entry>, e: Entry) returns (r: seq<Entry>)
      requires OldestFirst(sorted)
      ensures OldestFirst(r) && multiset(r) == multiset(sorted) + multiset{e}
    {
      var k := 0;
      while k < |sorted| && sorted[k].createdAt <= e.createdAt
        invariant 0 <= k <= |sorted| && forall j :: 0 <= j < k ==> sorted[j].createdAt <= e.createdAt
      {
        k := k + 1;
      }
      InsertedByTime(sorted, k, e);
      r := sorted[..k] + [e] + sorted[k..];
    }

    /** Collect the rebuild request and tell the policy of every entry. */
    method ReplayEntries(order: seq<Entry>) returns (rebuildEntries: map<Id, Vector>)
      requires Valid()
      modifies policy.Object()
      ensures Valid() && rebuildEntries == RebuildMap(order)
      ensures policy.Model() == InsertAll(old(policy.Model()), IdsOf(order))
    {
      rebuildEntries := map[];
      ghost var before := policy.Model();
      assert IdsOf(order[..0]) == [];
      for i := 0 to |order|
        invariant Valid()
        invariant policy.Model() == InsertAll(before, IdsOf(order[..i]))
        invariant rebuildEntries == RebuildMap(order[..i])
      {
        rebuildEntries := rebuildEntries[order[i].id := order[i].vector];
        policy.OnInsert(order[i].id);
        RebuildMapStep(order, i);
        InsertAllStep(before, order, i);
      }
      assert order[..|order|] == order;
    }

    method RebuildVectorStoreWithRetry(entries: map<Id, Vector>, attempts: seq<bool>) returns (ok: bool)
      modifies `vectors
      ensures ok <==> true in attempts
      ensures vectors == if ok then entries else old(vectors)
    {
      for n := 0 to |attempts|
        invariant true !in attempts[..n] && vectors == old(vectors)
      {
        if attempts[n] {
          vectors := entries;
          return true;
        }
      }
      return false;
    }

    method UpdateCache(job: Job, id: Id, now: int, f: UpdateFaults) returns (outcome: Outcome)
      requires Valid() && id !in vectors
      modifies this, policy.Object()
      ensures Valid() && policy.Model().Valid()
      ensures old(policy.Model()).Valid() && (State(), outcome) == Update(old(State()), capacity, job, id, now, f)
    {
      policy.ModelValid();
      ghost var c := State();
      if f.upsert {
        return Failed;
      }
      vectors := vectors[id := job.vector];
      if f.save {
        if !f.compensate {
          vectors := vectors - {id};
        }
        return Failed;
      }
      store := store[id := Entry(id, job.prompt, job.reply, job.vector, now)];
      policy.OnInsert(id);
      assert State() == Admit(c, job, id, now);
      outcome := EnforceCapacity(f.evict);
    }

    method EnforceCapacity(faults: seq<EvictFault>) returns (outcome: Outcome)
      requires Valid()
      modifies this, policy.Object()
      ensures Valid() && policy.Model().Valid()
      ensures old(policy.Model()).Valid()
      ensures (State(), outcome) == CacheEngine.EnforceCapacity(old(State()), capacity, faults)
    {
      policy.ModelValid();
      if capacity <= 0 {
        return Done;
      }
      var rest := faults;
      while true
        invariant Valid() && policy.Model().Valid()
        invariant Evict(old(State()), capacity, faults) == Evict(State(), capacity, rest)
        decreases |policy.Model().Ids()|
      {
        RoundShrinks(State(), capacity, Head(rest));
        var verdict := EvictOne(Head(rest));
        if verdict.Stop? {
          return verdict.outcome;
        }
        rest := Tail(rest);
      }
    }

    /** One round of the eviction loop. */
    method EvictOne(fault: EvictFault) returns (verdict: Verdict)
      requires Valid()
      modifies this, policy.Object()
      ensures Valid()
      ensures (State(), verdict) == Round(old(State()), capacity, fault)
    {
      ghost var c := State();
      if fault.SizeFails? {
        return Stop(Failed);
      }
      var size := |store|;
      if size <= capacity {
        return Stop(Done);
      }
      var victimId, ok := policy.Victim();
      if !ok {
        return Stop(NoVictim);
      }
      if fault.StoreDeleteFails? {
        return Stop(Failed);
      }
      store := store - {victimId};
      assert State() == c.(store := c.store - {victimId});
      if fault.VectorDeleteFails? || victimId !in vectors {
        return Stop(Failed);
      }
      FinishEviction(victimId);
      return Again;
    }

    /** The end of a round whose deletes both worked. */
    method FinishEviction(victimId: Id)
      requires Valid()
      modifies this, policy.Object()
      ensures Valid() && State() == Remove(old(State()), victimId).(store := old(store))
    {
      vectors := vectors - {victimId};
      policy.OnDelete(victimId);
      evictions := evictions + 1;
    }

    /** The hit loop of a query: skip matches that are not persisted, touch the others. */
    method ServeMatches(matches: seq<Id>) returns (results: seq<Entry>)
      requires Valid()
      modifies policy.Object()
      ensures Valid() && State() == Query(old(State()), matches)
      ensures results == Found(store, matches)
    {
      results := [];
      var i := 0;
      ghost var c := State();
      assert matches[..0] == [];
      while i < |matches|
        invariant 0 <= i <= |matches| && Valid()
        invariant State() == Query(c, matches[..i])
        invariant results == Found(store, matches[..i])
      {
        var id := matches[i];
        ServeOneMore(c, matches, i);
        if id in store {
          results := results + [store[id]];
          policy.OnHit(id);
        }
        i := i + 1;
      }
      assert matches[..i] == matches;
    }

    method FlushCache(vectorFails: bool, storeFails: bool) returns (outcome: Outcome)
      requires Valid()
      modifies this, policy.Object()
      ensures Valid()
      ensures (State(), outcome) == CacheEngine.Flush(old(State()), vectorFails, storeFails)
    {
      if vectorFails {
        return Failed;
      }
      vectors := map[];
      if !storeFails {
        store := map[];
      }
      policy.Flush();
      evictions := 0;
      return Done;
    }
  }
}
