/** Moving the cache's state when a component is replaced: re-embedding every entry,
    copying the persisted entries to another store, and replaying them into another
    eviction policy. Every remote call may fail. */
module Migration {
  import opened Entries
  import opened Policies
  import opened PolicyObjects
  import CE = CacheEngine

  /** Unicode white space, as strings.TrimSpace sees it. */
  predicate IsSpace(c: char) {
    || c in {' ', '\t', '\n', '\r', '\U{000B}', '\U{000C}', '\U{0085}', '\U{00A0}', '\U{1680}'}
    || '\U{2000}' <= c <= '\U{200A}'
    || c in {'\U{2028}', '\U{2029}', '\U{202F}', '\U{205F}', '\U{3000}'}
  }

  /** Nothing is left after trimming. */
  predicate Blank(s: string) {
    forall i :: 0 <= i < |s| ==> IsSpace(s[i])
  }

  /** `strings.TrimSpace`. */
  function Trim(s: string): string
    decreases |s|
  {
    if s != "" && IsSpace(s[0]) then Trim(s[1..])
    else if s != "" && IsSpace(s[|s| - 1]) then Trim(s[..|s| - 1])
    else s
  }

  /** The prompts the embedder is not asked about are those of white space only. */
  lemma {:induction false} BlankIsTrimmedAway(s: string)
    ensures Blank(s) <==> Trim(s) == ""
    decreases |s|
  {
    if s != "" && IsSpace(s[0]) {
      BlankIsTrimmedAway(s[1..]);
      assert s == [s[0]] + s[1..];
    } else if s != "" && IsSpace(s[|s| - 1]) {
      BlankIsTrimmedAway(s[..|s| - 1]);
      assert s == s[..|s| - 1] + [s[|s| - 1]];
    }
  }

  /** Outcome of an index rebuild: it works, it reports an error, or it reports success with
      the wrong number of entries. In the last two cases anything may be left behind. */
  datatype RebuildResult = Rebuilt | RebuildFails(left: map<Id, Vector>) | RebuildShort(left: map<Id, Vector>)

  /** A re-embedding that fails after its first write reports whether it saw an error while
      putting the old entries back. */
  datatype Outcome = Success | NothingChanged | Restored | RestoreFailed

  datatype ReembedFaults = ReembedFaults(
    listFails: bool,
    save: nat -> bool,            // does the i-th save of a new entry fail?
    rebuild: RebuildResult,
    restoreSave: nat -> bool,
    restoreRebuild: RebuildResult)

  function At(f: nat -> bool, n: nat): bool { f(n) }

  /** The entry re-embedded: everything but the vector is kept. */
  function Reembedded(e: Entry, embed: string -> Option<Vector>): Entry {
    match embed(e.prompt)
    case None => e
    case Some(v) => e.(vector := v)
  }

  predicate CanEmbed(e: Entry, embed: string -> Option<Vector>, dim: nat) {
    !Blank(e.prompt) && embed(e.prompt).Some? && |embed(e.prompt).value| == dim
  }

  function ReembedStore(store: map<Id, Entry>, embed: string -> Option<Vector>): map<Id, Entry> {
    map id | id in store :: Reembedded(store[id], embed)
  }

  predicate NoneFails(f: nat -> bool, n: nat) {
    forall i :: 0 <= i < n ==> !At(f, i)
  }

  /** Every entry can be read and embedded again. */
  predicate CanStage(store: map<Id, Entry>, size: nat, limit: nat, embed: string -> Option<Vector>, dim: nat,
                     f: ReembedFaults) {
    size <= limit && !f.listFails && forall id :: id in store ==> CanEmbed(store[id], embed, dim)
  }

  /** What a re-embedding of `n` entries, once staged, reports. */
  function WriteOutcome(n: nat, f: ReembedFaults): Outcome {
    if f.rebuild.Rebuilt? && NoneFails(f.save, n) then Success
    else if !f.restoreRebuild.RebuildFails? && NoneFails(f.restoreSave, n) then Restored
    else RestoreFailed
  }

  /** The index after the old vectors have been put back, as far as that worked. */
  function PutBack(store: map<Id, Entry>, f: ReembedFaults): map<Id, Vector> {
    if f.restoreRebuild.Rebuilt? then VectorsOf(store) else f.restoreRebuild.left
  }

  /** The active persistence store and vector store. */
  class Slots {
    var store: map<Id, Entry>
    var vectors: map<Id, Vector>

    constructor (store: map<Id, Entry>, vectors: map<Id, Vector>)
      ensures this.store == store && this.vectors == vectors
    {
      this.store, this.vectors := store, vectors;
    }

    /** Save entries that are already stored under their ids, stopping at a failure. */
    method SaveAll(entries: seq<Entry>, fails: nat -> bool) returns (ok: bool)
      requires DistinctIds(entries) && forall e :: e in entries ==> e.id in store
      requires WellKeyed(store)
      modifies `store
      ensures store.Keys == old(store.Keys) && WellKeyed(store)
      ensures ok <==> forall i :: 0 <= i < |entries| ==> !At(fails, i)
      ensures ok ==> forall e :: e in entries ==> store[e.id] == e
    {
      for i := 0 to |entries|
        invariant store.Keys == old(store.Keys) && WellKeyed(store)
        invariant forall k :: 0 <= k < i ==> store[entries[k].id] == entries[k]
        invariant forall k :: 0 <= k < i ==> !At(fails, k)
      {
        if At(fails, i) {
          return false;
        }
        assert entries[i] in entries;
        store := store[entries[i].id := entries[i]];
      }
      return true;
    }

    method RebuildVectors(entries: seq<Entry>, result: RebuildResult) returns (ok: bool)
      modifies `vectors
      ensures ok <==> result.Rebuilt?
      ensures vectors == if ok then RebuildMap(entries) else result.left
    {
      if result.Rebuilt? {
        vectors := RebuildMap(entries);
        return true;
      }
      vectors := result.left;
      return false;
    }

    /** Put the old entries back and rebuild the index from them. The rebuild is tried even
        if a save failed, and here nobody compares the number of entries it restored. */
    method Restore(listed: seq<Entry>, ghost original: map<Id, Entry>, f: ReembedFaults) returns (r: Outcome)
      requires WellKeyed(store) && store.Keys == original.Keys
      requires WellKeyed(original) && IsListing(listed, original)
      modifies this
      ensures r == Restored || r == RestoreFailed
      ensures r == Restored ==> store == original
      ensures vectors == PutBack(original, f)
      ensures r == RestoreFailed <==>
                (exists i :: 0 <= i < |listed| && At(f.restoreSave, i)) || f.restoreRebuild.RebuildFails?
    {
      var saved := SaveAll(listed, f.restoreSave);
      if saved {
        forall id | id in original ensures store[id] == original[id] { assert original[id] in listed; }
      }
      var rebuilt := RebuildVectors(listed, f.restoreRebuild);
      RebuildMapOfListing(listed, original);
      if saved && !f.restoreRebuild.RebuildFails? {
        return Restored;
      }
      return RestoreFailed;
    }

    /** Recompute every persisted vector with the candidate embedder and rebuild the index.
        Everything is staged first; a failure after the first write is undone. */
    method Reembed(listing: seq<Entry>, size: nat, limit: nat, embed: string -> Option<Vector>, dim: nat,
                   f: ReembedFaults) returns (r: Outcome)
      requires WellKeyed(store) && IsListing(listing, store)
      modifies this
      ensures r == Success ==> store == ReembedStore(old(store), embed) && vectors == VectorsOf(store)
      ensures r == NothingChanged ==> store == old(store) && vectors == old(vectors)
      ensures r == Restored ==> store == old(store)
      ensures r == Restored || r == RestoreFailed ==> vectors == PutBack(old(store), f)
      ensures r == if CanStage(old(store), size, limit, embed, dim, f) then WriteOutcome(|old(store)|, f)
                   else NothingChanged
      // success: the same ids, and under each the old entry with its own prompt embedded anew
      ensures r == Success ==> store.Keys == old(store).Keys == vectors.Keys
      ensures r == Success ==> forall id :: id in store ==>
                var was, e := old(store)[id], store[id];
                && e.id == was.id && e.prompt == was.prompt && e.reply == was.reply && e.createdAt == was.createdAt
                && embed(was.prompt) == Some(e.vector) && |e.vector| == dim && vectors[id] == e.vector
      // when nothing is touched, and when what was begun is finished or undone
      ensures r == NothingChanged <==>
                || size > limit || f.listFails
                || exists id :: id in old(store) &&
                     var prompt := old(store)[id].prompt;
                     Blank(prompt) || embed(prompt) == None || |embed(prompt).value| != dim
      ensures r == Success ==> f.rebuild.Rebuilt? && forall i :: 0 <= i < |old(store)| ==> !At(f.save, i)
      ensures r == Restored || r == RestoreFailed ==>
                !f.rebuild.Rebuilt? || exists i :: 0 <= i < |old(store)| && At(f.save, i)
      ensures r == Restored ==>
                !f.restoreRebuild.RebuildFails? && forall i :: 0 <= i < |old(store)| ==> !At(f.restoreSave, i)
      ensures r == RestoreFailed ==>
                f.restoreRebuild.RebuildFails? || exists i :: 0 <= i < |old(store)| && At(f.restoreSave, i)
    {
      if size > limit || f.listFails {
        return NothingChanged;
      }
      ListingSize(listing, store);
      var listed := SortEntries(listing);
      SortedListingUnique(listing, listing, store);
      ListingSize(listed, store);
      var staged, next := Stage(listed, embed, dim);
      EmbedsAll(listed, store, embed, dim);
      if !staged {
        return NothingChanged;
      }
      r := WriteOrRestore(listed, next, store, embed, f);
      if r == Success { EmbeddedAnew(old(store), embed, dim); }
    }

    /** Once everything is staged. */
    method WriteOrRestore(listed: seq<Entry>, next: seq<Entry>, ghost original: map<Id, Entry>,
                          embed: string -> Option<Vector>, f: ReembedFaults) returns (r: Outcome)
      requires WellKeyed(store) && store == original && IsListing(listed, original) && |next| == |listed|
      requires forall k :: 0 <= k < |listed| ==> next[k] == Reembedded(listed[k], embed)
      modifies this
      ensures r == Success ==> store == ReembedStore(original, embed) && vectors == VectorsOf(store)
      ensures r == Restored ==> store == original
      ensures r == Restored || r == RestoreFailed ==> vectors == PutBack(original, f)
      ensures r == WriteOutcome(|listed|, f)
    {
      NextIsListing(listed, next, original, embed);
      var written := Write(next, original, embed, f);
      if written {
        return Success;
      }
      r := Restore(listed, original, f);
    }

    /** Embed every listed entry again, writing nothing. */
    static method Stage(listed: seq<Entry>, embed: string -> Option<Vector>, dim: nat)
        returns (ok: bool, next: seq<Entry>)
      ensures ok <==> forall k :: 0 <= k < |listed| ==> CanEmbed(listed[k], embed, dim)
      ensures ok ==> |next| == |listed| && forall k :: 0 <= k < |listed| ==> next[k] == Reembedded(listed[k], embed)
    {
      next := [];
      for i := 0 to |listed|
        invariant |next| == i
        invariant forall k :: 0 <= k < i ==> CanEmbed(listed[k], embed, dim) && next[k] == Reembedded(listed[k], embed)
      {
        if !CanEmbed(listed[i], embed, dim) {
          return false, next;
        }
        next := next + [Reembedded(listed[i], embed)];
      }
      return true, next;
    }

    /** Save the staged entries and rebuild the index from them. */
    method Write(next: seq<Entry>, ghost original: map<Id, Entry>, embed: string -> Option<Vector>, f: ReembedFaults)
      returns (ok: bool)
      requires WellKeyed(store) && store == original && IsListing(next, ReembedStore(original, embed))
      modifies this
      ensures WellKeyed(store) && store.Keys == original.Keys
      ensures ok <==> f.rebuild.Rebuilt? && forall i :: 0 <= i < |next| ==> !At(f.save, i)
      ensures ok ==> store == ReembedStore(original, embed) && vectors == VectorsOf(store)
    {
      var saved := SaveAll(next, f.save);
      if !saved {
        return false;
      }
      assert store == ReembedStore(original, embed) by {
        forall id | id in original ensures store[id] == ReembedStore(original, embed)[id] {
          assert ReembedStore(original, embed)[id] in next;
        }
      }
      RebuildMapOfListing(next, store);
      ok := RebuildVectors(next, f.rebuild);
    }
  }

  /** What a re-embedded store holds. */
  lemma EmbeddedAnew(store: map<Id, Entry>, embed: string -> Option<Vector>, dim: nat)
    requires forall id :: id in store ==> CanEmbed(store[id], embed, dim)
    ensures var next := ReembedStore(store, embed);
            && next.Keys == store.Keys == VectorsOf(next).Keys
            && forall id :: id in next ==>
                 var was, e := store[id], next[id];
                 && e.id == was.id && e.prompt == was.prompt && e.reply == was.reply && e.createdAt == was.createdAt
                 && embed(was.prompt) == Some(e.vector) && |e.vector| == dim && VectorsOf(next)[id] == e.vector
  {}

  /** Every listed entry can be embedded exactly when every stored one can. */
  lemma EmbedsAll(listed: seq<Entry>, store: map<Id, Entry>, embed: string -> Option<Vector>, dim: nat)
    requires WellKeyed(store) && IsListing(listed, store)
    ensures (forall k :: 0 <= k < |listed| ==> CanEmbed(listed[k], embed, dim)) <==>
            (forall id :: id in store ==> CanEmbed(store[id], embed, dim))
  {
    forall id | id in store ensures exists k :: 0 <= k < |listed| && listed[k] == store[id] {
      assert store[id] in listed;
    }
    forall k | 0 <= k < |listed| ensures listed[k].id in store && store[listed[k].id] == listed[k] {
      assert listed[k] in listed;
    }
  }

  lemma NextIsListing(listed: seq<Entry>, next: seq<Entry>, store: map<Id, Entry>, embed: string -> Option<Vector>)
    requires WellKeyed(store) && IsListing(listed, store) && |next| == |listed|
    requires forall k :: 0 <= k < |listed| ==> next[k] == Reembedded(listed[k], embed)
    ensures IsListing(next, ReembedStore(store, embed)) && WellKeyed(ReembedStore(store, embed))
  {
    var m := ReembedStore(store, embed);
    NextDistinct(listed, next, embed);
    forall e | e in next ensures e.id in m && m[e.id] == e { NextIsStored(listed, next, store, embed, e); }
    forall id | id in m ensures m[id] in next { StoredIsNext(listed, next, store, embed, id); }
  }

  lemma NextDistinct(listed: seq<Entry>, next: seq<Entry>, embed: string -> Option<Vector>)
    requires DistinctIds(listed) && |next| == |listed|
    requires forall k :: 0 <= k < |listed| ==> next[k] == Reembedded(listed[k], embed)
    ensures DistinctIds(next)
  {
    assert forall k :: 0 <= k < |listed| ==> next[k].id == listed[k].id;
  }

  lemma NextIsStored(listed: seq<Entry>, next: seq<Entry>, store: map<Id, Entry>, embed: string -> Option<Vector>,
                     e: Entry)
    requires IsListing(listed, store) && |next| == |listed| && e in next
    requires forall k :: 0 <= k < |listed| ==> next[k] == Reembedded(listed[k], embed)
    ensures e.id in store && ReembedStore(store, embed)[e.id] == e
  {
    var k :| 0 <= k < |next| && next[k] == e;
    assert listed[k] in listed;
  }

  lemma StoredIsNext(listed: seq<Entry>, next: seq<Entry>, store: map<Id, Entry>, embed: string -> Option<Vector>,
                     id: Id)
    requires IsListing(listed, store) && |next| == |listed| && id in store
    requires forall k :: 0 <= k < |listed| ==> next[k] == Reembedded(listed[k], embed)
    ensures ReembedStore(store, embed)[id] in next
  {
    assert store[id] in listed;
    var k :| 0 <= k < |listed| && listed[k] == store[id];
    assert next[k] == ReembedStore(store, embed)[id];
  }

  // ---- what re-embedding means for the cache ---------------------------------------------------

  /** The cache after a successful re-embedding. */
  ghost function AfterReembed(c: CE.Cache, embed: string -> Option<Vector>): CE.Cache {
    c.(store := ReembedStore(c.store, embed), vectors := VectorsOf(ReembedStore(c.store, embed)))
  }

  /** The cache after one that failed and reported that the old vectors are back. */
  ghost function AfterRestore(c: CE.Cache, f: ReembedFaults): CE.Cache {
    c.(vectors := PutBack(c.store, f))
  }

  /** What such a report is worth: the cache's invariant holds exactly when the index really
      got back the vector of every entry and no eviction was half done, or, if the rebuild
      stopped short, when what it left covers every id of the policy all the same. */
  lemma RestoreKeepsInvIff(c: CE.Cache, f: ReembedFaults)
    requires CE.Inv(c) && WriteOutcome(|c.store|, f) == Restored
    ensures CE.Inv(AfterRestore(c, f)) <==>
              if f.restoreRebuild.Rebuilt? then CE.HalfEvicted(c) == {}
              else (forall id :: id in c.policy.Ids() ==> id in f.restoreRebuild.left)
                   && forall id :: id in c.store ==> f.restoreRebuild.left[id] == c.store[id].vector
  {
    var d := AfterRestore(c, f);
    if f.restoreRebuild.Rebuilt? {
      assert d.vectors.Keys == c.store.Keys;
      if CE.HalfEvicted(c) == {} {
        forall id | id in c.policy.Ids() ensures id in d.vectors.Keys { assert id !in CE.HalfEvicted(c); }
      }
      if c.policy.Ids() <= d.vectors.Keys { assert CE.HalfEvicted(c) == {}; }
    }
  }

  /** A successful re-embedding keeps the cache's invariant exactly when no eviction is half
      done: the rebuilt index lacks the vectors of ids that only the policy still holds. */
  lemma ReembedKeepsInvIff(c: CE.Cache, embed: string -> Option<Vector>)
    requires CE.Inv(c)
    ensures CE.Inv(AfterReembed(c, embed)) <==> CE.HalfEvicted(c) == {}
  {
    var d := AfterReembed(c, embed);
    assert d.store.Keys == c.store.Keys == d.vectors.Keys;
    if CE.HalfEvicted(c) == {} {
      assert c.policy.Ids() <= d.vectors.Keys by {
        forall id | id in c.policy.Ids() ensures id in d.vectors.Keys { assert id !in CE.HalfEvicted(c); }
      }
    }
    if c.policy.Ids() <= d.vectors.Keys {
      assert CE.HalfEvicted(c) == {};
    }
  }

  /** `g` is tracked but neither indexed nor stored, it is next to go, and the store is full. */
  ghost predicate Blocked(c: CE.Cache, capacity: int, g: Id) {
    && c.policy.Valid() && !c.policy.Lfu? && c.policy.Victim() == Some(g)
    && g !in c.vectors && c.policy.Ids() == c.store.Keys + {g} && g !in c.store
    && 0 < capacity <= |c.store|
  }

  /** That is what a re-embedding makes of an unfinished eviction on LRU or FIFO. */
  lemma ReembedBlocks(c: CE.Cache, embed: string -> Option<Vector>, capacity: int, g: Id)
    requires CE.Inv(c) && CE.OnePending(c, capacity) && g in CE.HalfEvicted(c)
    ensures Blocked(AfterReembed(c, embed), capacity, g)
  {
    var d := AfterReembed(c, embed);
    assert d.store.Keys == c.store.Keys == d.vectors.Keys;
    assert |d.store| == |c.store| by { assert |d.store| == |d.store.Keys| && |c.store| == |c.store.Keys|; }
    forall id | id in c.policy.Ids() ensures id in c.store.Keys || id == g {
      if id !in c.store.Keys { assert id in CE.HalfEvicted(c); }
    }
  }

  /** Every eviction then fails on `g`: the index refuses to delete what it does not hold, so
      the policy never forgets the id. */
  lemma MissingVectorBlocksEviction(c: CE.Cache, capacity: int, g: Id, faults: seq<CE.EvictFault>)
    requires c.policy.Valid() && c.policy.Victim() == Some(g) && g !in c.vectors && g !in c.store
    requires |c.store| > capacity > 0
    ensures CE.EnforceCapacity(c, capacity, faults) == (c, CE.Failed)
  {
    assert c.store - {g} == c.store;
  }

  /** So an update adds its entry, if it gets that far, evicts nothing and reports an error. */
  lemma BlockedUpdate(c: CE.Cache, capacity: int, g: Id, job: CE.Job, id: Id, now: int, f: CE.UpdateFaults)
    requires Blocked(c, capacity, g) && id !in c.vectors && id !in c.policy.Ids()
    ensures var (r, o) := CE.Update(c, capacity, job, id, now, f);
            && Blocked(r, capacity, g) && o == CE.Failed && r.evictions == c.evictions
            && r.store.Keys == c.store.Keys + (if f.upsert || f.save then {} else {id})
            && |r.store| == |c.store| + if f.upsert || f.save then 0 else 1
  {
    if !f.upsert && !f.save {
      AdmitStaysBlocked(c, capacity, g, job, id, now);
      MissingVectorBlocksEviction(CE.Admit(c, job, id, now), capacity, g, f.evict);
    }
  }

  lemma AdmitStaysBlocked(c: CE.Cache, capacity: int, g: Id, job: CE.Job, id: Id, now: int)
    requires Blocked(c, capacity, g) && id !in c.vectors && id !in c.policy.Ids()
    ensures var a := CE.Admit(c, job, id, now);
            Blocked(a, capacity, g) && a.store.Keys == c.store.Keys + {id} && |a.store| == |c.store| + 1
  {
    var a := CE.Admit(c, job, id, now);
    assert a.policy.Valid() && a.policy.Ids() == c.policy.Ids() + {id} by { HooksKeepValid(c.policy, Insert(id)); }
    assert !a.policy.Lfu? && a.policy.Victim() == Some(g) by { CE.VictimSurvives(c.policy, Insert(id), g); }
    assert id !in c.store.Keys;
    assert |a.store| == |c.store| + 1 by { CE.AddThenDrop(c.store, id, a.store[id]); }
  }

  lemma BlockedQuery(c: CE.Cache, capacity: int, g: Id, matches: seq<Id>)
    requires Blocked(c, capacity, g)
    ensures Blocked(CE.Query(c, matches), capacity, g)
  {
    var ids := CE.Served(c, matches);
    CE.ServedAreStored(c, matches);
    CE.HitsKeepIds(c.policy, ids);
    CE.HitsKeepKind(c.policy, ids);
    CE.HitsKeepVictim(c.policy, ids, g);
  }

  /** How many updates get as far as storing their entry. */
  ghost function Stored(ops: seq<CE.Op>): nat {
    if ops == [] then 0
    else Stored(ops[..|ops| - 1]) + if SavesEntry(ops[|ops| - 1]) then 1 else 0
  }

  predicate SavesEntry(op: CE.Op) {
    op.UpdateOp? && !op.faults.upsert && !op.faults.save
  }

  /** Queries and updates with fresh ids, whatever fails in them, one after the other. */
  ghost predicate IsTraffic(cs: seq<CE.Cache>, capacity: int, ops: seq<CE.Op>) {
    |cs| == |ops| + 1 && forall i :: 0 <= i < |ops| ==> Serves(cs[i], capacity, ops[i], cs[i + 1])
  }

  ghost predicate Serves(c: CE.Cache, capacity: int, op: CE.Op, d: CE.Cache) {
    && c.policy.Valid() && d == CE.Step(c, capacity, op)
    && (op.QueryOp? || (op.UpdateOp? && op.id !in c.vectors && op.id !in c.policy.Ids()))
  }

  /** Nothing was evicted, and `n` entries were added. */
  ghost predicate GrowsBy(c: CE.Cache, d: CE.Cache, n: nat) {
    d.evictions == c.evictions && c.store.Keys <= d.store.Keys && |d.store| == |c.store| + n
  }

  /** From then on nothing is evicted and the store only grows, by every update that stores its
      entry, past the capacity and for as long as there are only queries and updates. */
  lemma {:induction false} BlockedForGood(cs: seq<CE.Cache>, capacity: int, ops: seq<CE.Op>, g: Id, n: nat)
    requires IsTraffic(cs, capacity, ops) && n < |cs| && Blocked(cs[0], capacity, g)
    ensures Blocked(cs[n], capacity, g) && GrowsBy(cs[0], cs[n], Stored(ops[..n]))
  {
    if n > 0 {
      BlockedForGood(cs, capacity, ops, g, n - 1);
      StoredStep(ops, n - 1);
      assert Serves(cs[n - 1], capacity, ops[n - 1], cs[n - 1 + 1]);
      BlockedStep(cs[n - 1], capacity, ops[n - 1], cs[n], g);
    }
  }

  lemma StoredStep(ops: seq<CE.Op>, i: nat)
    requires i < |ops|
    ensures Stored(ops[..i + 1]) == Stored(ops[..i]) + if SavesEntry(ops[i]) then 1 else 0
  {
    assert ops[..i + 1][..i] == ops[..i];
  }

  lemma BlockedStep(c: CE.Cache, capacity: int, op: CE.Op, d: CE.Cache, g: Id)
    requires Blocked(c, capacity, g) && Serves(c, capacity, op, d)
    ensures Blocked(d, capacity, g) && GrowsBy(c, d, if SavesEntry(op) then 1 else 0)
  {
    match op {
      case UpdateOp(job, id, now, f) => BlockedUpdate(c, capacity, g, job, id, now, f);
      case QueryOp(matches) => BlockedQuery(c, capacity, g, matches);
    }
  }

  // ---- copying the persisted entries --------------------------------------------------------------

  /** What a candidate store does with one save: carry it out, refuse it, or anything. */
  datatype SaveEffect = Kept | Refused | Rogue(reportsOk: bool, contents: map<Id, Entry>)

  /** The comparison made when verifying a copied entry. */
  predicate SameStored(got: Entry, want: Entry) {
    && got.reply == want.reply && got.prompt == want.prompt
    && |got.vector| == |want.vector| && got.createdAt == want.createdAt
  }

  class CandidateStore {
    var contents: map<Id, Entry>

    constructor (contents: map<Id, Entry>)
      ensures this.contents == contents
    {
      this.contents := contents;
    }

    method Save(e: Entry, effect: SaveEffect) returns (ok: bool)
      modifies this
      ensures match effect
              case Kept => ok && contents == old(contents)[e.id := e]
              case Refused => !ok && contents == old(contents)
              case Rogue(says, left) => ok == says && contents == left
    {
      match effect {
        case Kept => contents := contents[e.id := e]; return true;
        case Refused => return false;
        case Rogue(says, left) => contents := left; return says;
      }
    }

    /** Save the entries in order, noting each id saved, until a save reports an error. */
    method CopyAll(entries: seq<Entry>, effects: seq<SaveEffect>) returns (ok: bool, saved: seq<Id>)
      requires |effects| >= |entries| && DistinctIds(entries)
      modifies this
      ensures |saved| <= |entries| && (ok ==> |saved| == |entries|)
      ensures forall k :: 0 <= k < |saved| ==> saved[k] == entries[k].id
      ensures Honest(effects) && old(contents) == map[] ==> Copied(contents, entries[..|saved|])
      // it reports success exactly if every save did
      ensures ok <==> forall k :: 0 <= k < |entries| ==> ReportsOk(effects[k])
      ensures !ok ==> |saved| < |entries| && !ReportsOk(effects[|saved|])
    {
      saved := [];
      for i := 0 to |entries|
        invariant |saved| == i && forall k :: 0 <= k < i ==> saved[k] == entries[k].id && ReportsOk(effects[k])
        invariant Honest(effects) && old(contents) == map[] ==> Copied(contents, entries[..i])
      {
        var stored := Save(entries[i], effects[i]);
        if !stored {
          return false, saved;
        }
        saved := saved + [entries[i].id];
        assert entries[..i + 1] == entries[..i] + [entries[i]];
      }
      return true, saved;
    }

    /** Load every entry and compare it. */
    method VerifyAll(entries: seq<Entry>, loadFails: set<Id>) returns (ok: bool)
      ensures ok <==> forall k :: 0 <= k < |entries| ==>
                && entries[k].id in contents && entries[k].id !in loadFails
                && (var e, got := entries[k], contents[entries[k].id];
                    && got.prompt == e.prompt && got.reply == e.reply && got.createdAt == e.createdAt
                    && |got.vector| == |e.vector|)
    {
      for i := 0 to |entries|
        invariant forall k :: 0 <= k < i ==>
                    entries[k].id in contents && entries[k].id !in loadFails
                        && SameStored(contents[entries[k].id], entries[k])
      {
        var e := entries[i];
        if e.id in loadFails || e.id !in contents {
          return false;
        }
        var got := contents[e.id];
        if !SameStored(got, e) {
          return false;
        }
      }
      return true;
    }

    /** Copy every entry, compare the count, then load and compare each. Success means the
        candidate holds exactly the source's ids with the same data, whatever its saves
        really did. If its saves are honest, it holds exactly what `saved` lists. */
    method MigrateFrom(source: map<Id, Entry>, listing: seq<Entry>, effects: seq<SaveEffect>, sizeFails: bool,
        loadFails: set<Id>)
      returns (ok: bool, saved: seq<Id>)
      requires WellKeyed(source) && IsListing(listing, source) && |effects| >= |source|
      modifies this
      ensures ok ==> contents.Keys == source.Keys
      ensures ok ==> forall id :: id in source ==>
                && contents[id].prompt == source[id].prompt && contents[id].reply == source[id].reply
                && contents[id].createdAt == source[id].createdAt && |contents[id].vector| == |source[id].vector|
      ensures Honest(effects) && old(contents) == map[] ==>
                && (forall id :: id in contents <==> id in saved)
                && (forall id :: id in contents ==> id in source && contents[id] == source[id])
                && (ok ==> contents == source)
      ensures old(contents) == map[] && !sizeFails && loadFails == {} && AllKept(effects) ==> ok
    {
      var entries := SortEntries(listing);
      SortedListingUnique(listing, listing, source);
      assert |entries| == |source| by { ListingSize(entries, source); }
      ok, saved := CopyAll(entries, effects);
      if Honest(effects) && old(contents) == map[] { CopiedSome(contents, source, entries, saved); }
      if !ok {
        return;
      }
      var n := |contents|;
      if sizeFails || n != |entries| {
        return false, saved;
      }
      ok := VerifyAll(entries, loadFails);
      if ok { AllFound(contents, source, entries); }
    }

    /** The migration as `execute` runs it: if copying fails, or the swap after it does, what
        was saved is deleted again. An honest candidate that started empty ends up holding
        exactly the source, or, if the deletes work, nothing. */
    method MigrateOrUndo(source: map<Id, Entry>, listing: seq<Entry>, effects: seq<SaveEffect>, sizeFails: bool,
        loadFails: set<Id>,
                         swapFails: bool, deleteFails: set<Id>)
      returns (ok: bool)
      requires WellKeyed(source) && IsListing(listing, source) && |effects| >= |source|
      modifies this
      ensures ok ==> !swapFails && contents.Keys == source.Keys
      ensures ok ==> forall id :: id in source ==>
                && contents[id].prompt == source[id].prompt && contents[id].reply == source[id].reply
                && contents[id].createdAt == source[id].createdAt && |contents[id].vector| == |source[id].vector|
      ensures old(contents) == map[] && !sizeFails && loadFails == {} && !swapFails && AllKept(effects) ==> ok
      ensures Honest(effects) && old(contents) == map[] && ok ==> contents == source
      ensures Honest(effects) && old(contents) == map[] && !ok && deleteFails == {} ==> contents == map[]
      ensures Honest(effects) && old(contents) == map[] && !ok ==>
                forall id :: id in contents ==> id in deleteFails && id in source && contents[id] == source[id]
    {
      var saved;
      ok, saved := MigrateFrom(source, listing, effects, sizeFails, loadFails);
      if !ok || swapFails {
        Cleanup(saved, deleteFails);
        return false;
      }
    }

    /** Undo: delete what was saved, ignoring errors. With working deletes it leaves
        nothing of what `saved` lists. */
    method Cleanup(saved: seq<Id>, fails: set<Id>)
      modifies this
      ensures forall id :: id in contents <==> id in old(contents) && (id !in saved || id in fails)
      ensures forall id :: id in contents ==> contents[id] == old(contents)[id]
      ensures fails == {} && (forall id :: id in old(contents) ==> id in saved) ==> contents == map[]
    {
      for i := 0 to |saved|
        invariant forall id :: id in contents <==> id in old(contents) && (id !in saved[..i] || id in fails)
        invariant forall id :: id in contents ==> contents[id] == old(contents)[id]
      {
        if saved[i] !in fails {
          contents := contents - {saved[i]};
        }
        assert saved[..i + 1] == saved[..i] + [saved[i]];
      }
      assert saved[..|saved|] == saved;
    }
  }

  predicate ReportsOk(effect: SaveEffect) {
    effect == Kept || (effect.Rogue? && effect.reportsOk)
  }

  predicate AllKept(effects: seq<SaveEffect>) {
    forall i :: 0 <= i < |effects| ==> effects[i].Kept?
  }

  predicate Honest(effects: seq<SaveEffect>) {
    forall i :: 0 <= i < |effects| ==> !effects[i].Rogue?
  }

  /** `contents` is exactly what saving `entries` into an empty store leaves. */
  ghost predicate Copied(contents: map<Id, Entry>, entries: seq<Entry>) {
    && (forall id :: id in contents ==> contents[id].id == id && contents[id] in entries)
    && (forall e :: e in entries ==> e.id in contents)
  }

  lemma CopiedOnly(contents: map<Id, Entry>, source: map<Id, Entry>, entries: seq<Entry>, saved: seq<Id>)
    requires IsListing(entries, source) && |saved| <= |entries|
    requires forall k :: 0 <= k < |saved| ==> saved[k] == entries[k].id
    requires Copied(contents, entries[..|saved|])
    ensures forall id :: id in contents <==> id in saved
    ensures forall id :: id in contents ==> id in source && contents[id] == source[id]
  {
    var copied := entries[..|saved|];
    forall id | id in contents ensures id in saved && id in source && contents[id] == source[id] {
      var k :| 0 <= k < |copied| && copied[k] == contents[id];
      assert saved[k] == id && entries[k] in entries;
    }
    forall id | id in saved ensures id in contents {
      var k :| 0 <= k < |saved| && saved[k] == id;
      assert copied[k] in copied;
    }
  }

  lemma CopiedAll(contents: map<Id, Entry>, source: map<Id, Entry>, entries: seq<Entry>)
    requires WellKeyed(source) && IsListing(entries, source) && Copied(contents, entries)
    requires forall id :: id in contents ==> id in source && contents[id] == source[id]
    ensures contents == source
    ensures forall k :: 0 <= k < |entries| ==>
        entries[k].id in contents && SameStored(contents[entries[k].id], entries[k])
  {
    forall id | id in source ensures id in contents { assert source[id] in entries; }
    forall k | 0 <= k < |entries| ensures entries[k].id in contents && contents[entries[k].id] == entries[k] {
      assert entries[k] in entries;
    }
  }

  lemma CopiedSome(contents: map<Id, Entry>, source: map<Id, Entry>, entries: seq<Entry>, saved: seq<Id>)
    requires WellKeyed(source) && IsListing(entries, source) && |saved| <= |entries| == |source|
    requires forall k :: 0 <= k < |saved| ==> saved[k] == entries[k].id
    requires Copied(contents, entries[..|saved|])
    ensures forall id :: id in contents <==> id in saved
    ensures forall id :: id in contents ==> id in source && contents[id] == source[id]
    ensures |saved| == |entries| ==> contents == source && |contents| == |entries|
    ensures |saved| == |entries| ==>
              forall k :: 0 <= k < |entries| ==>
                  entries[k].id in contents && SameStored(contents[entries[k].id], entries[k])
  {
    CopiedOnly(contents, source, entries, saved);
    if |saved| == |entries| { CopiedWhole(contents, source, entries, saved); }
  }

  lemma CopiedWhole(contents: map<Id, Entry>, source: map<Id, Entry>, entries: seq<Entry>, saved: seq<Id>)
    requires WellKeyed(source) && IsListing(entries, source) && |saved| == |entries|
    requires forall k :: 0 <= k < |saved| ==> saved[k] == entries[k].id
    requires Copied(contents, entries[..|saved|])
    ensures contents == source
    ensures forall k :: 0 <= k < |entries| ==>
        entries[k].id in contents && SameStored(contents[entries[k].id], entries[k])
  {
    CopiedOnly(contents, source, entries, saved);
    assert entries[..|saved|] == entries;
    CopiedAll(contents, source, entries);
  }

  /** The count and the loads together leave no room for an extra id. */
  lemma AllFound(contents: map<Id, Entry>, source: map<Id, Entry>, entries: seq<Entry>)
    requires WellKeyed(source) && IsListing(entries, source) && |contents| == |entries|
    requires forall k :: 0 <= k < |entries| ==>
        entries[k].id in contents && SameStored(contents[entries[k].id], entries[k])
    ensures contents.Keys == source.Keys
    ensures forall id :: id in source ==> SameStored(contents[id], source[id])
  {
    forall id | id in source ensures id in contents && SameStored(contents[id], source[id]) {
      assert source[id] in entries;
      var k :| 0 <= k < |entries| && entries[k] == source[id];
    }
    ListingSize(entries, source);
    SubsetOfEqualSize(source.Keys, contents.Keys);
  }

  lemma SubsetOfEqualSize(a: set<Id>, b: set<Id>)
    requires a <= b && |a| == |b|
    ensures a == b
  {
    assert |b - a| == |b| - |a|;
    assert b == a + (b - a);
  }

  // ---- replaying into a policy -----------------------------------------------------------------------

  /** Flush a candidate policy, replay the entries in creation order and check its victim.
      The built-in policies always pass, and then evict in (created, id) order. */
  method ReplayPolicy(cand: ActivePolicy, store: map<Id, Entry>, listing: seq<Entry>) returns (ok: bool)
    requires cand.Valid() && WellKeyed(store) && IsListing(listing, store)
    modifies cand.Object()
    ensures cand.Valid() && cand.Model().Valid() && ok
    ensures cand.Model().Ids() == store.Keys
    ensures Drain(cand.Model()) == IdsOf(SortEntries(listing)) && InCreationOrder(Drain(cand.Model()), store)
  {
    ghost var before := cand.Model();
    var entries := SortEntries(listing);
    SortedListingUnique(listing, listing, store);
    cand.Flush();
    assert IdsOf(entries[..0]) == [];
    for i := 0 to |entries|
      invariant cand.Valid() && cand.Model() == InsertAll(before.Flush(), IdsOf(entries[..i]))
    {
      cand.OnInsert(entries[i].id);
      InsertAllStep(before.Flush(), entries, i);
    }
    assert entries[..|entries|] == entries;
    ReplayIsSound(before, store, entries);
    SortedReplayDrainsInCreationOrder(before, store, listing, listing);
    ok := ReplayCheck(cand, entries);
  }

  /** The candidate's victim must be a replayed entry, and absent if there is none. */
  method ReplayCheck(cand: ActivePolicy, entries: seq<Entry>) returns (ok: bool)
    requires cand.Valid()
    ensures ok <==> (entries == [] && cand.Model().Victim().None?)
                    || (entries != [] && cand.Model().Victim().Some?
                        && exists e :: e in entries && e.id == cand.Model().Victim().value)
  {
    var v, found := cand.Victim();
    if entries == [] {
      return !found;
    }
    return found && exists e :: e in entries && e.id == v;
  }

  lemma ReplayIsSound(before: Policy, store: map<Id, Entry>, entries: seq<Entry>)
    requires WellKeyed(store) && IsListing(entries, store)
    ensures var p := InsertAll(before.Flush(), IdsOf(entries));
            && p.Valid() && p.Ids() == store.Keys
            && (entries == [] ==> p.Victim() == None)
            && (entries != [] ==> p.Victim().Some? && exists e :: e in entries && e.id == p.Victim().value)
  {
    var p := InsertAll(before.Flush(), IdsOf(entries));
    CE.RestartEstablishesInv(store, before, entries);
    VictimCharacterized(p);
    if entries == [] {
      assert store.Keys == {} by { assert |store| == 0; }
    } else {
      assert entries[0] in entries && entries[0].id in store.Keys;
      var v := p.Victim().value;
      assert p.IsVictim(v) && v in store.Keys;
      assert store[v] in entries;
    }
  }

  /** Serving another store's contents: the index and the policy rebuilt from it satisfy the
      cache's invariant with it, and no eviction is pending. */
  lemma RebuiltFromStore(store: map<Id, Entry>, kind: Policy, listing: seq<Entry>, evictions: nat)
    requires WellKeyed(store) && IsListing(listing, store)
    ensures var c := CE.Cache(RebuildMap(SortEntries(listing)), store,
        InsertAll(kind.Flush(), IdsOf(SortEntries(listing))), evictions);
            CE.Inv(c) && CE.HalfEvicted(c) == {}
  {
    var sorted := SortEntries(listing);
    SortedListingUnique(listing, listing, store);
    RebuildMapOfListing(sorted, store);
    CE.RestartEstablishesInv(store, kind, sorted);
  }
}
