/** Cache entries, the order they were created in, and sorting by that order.

    Every component that rebuilds its state from the persisted entries first sorts
    them by (creation time, id); ids are unique, so that order is total and the
    result does not depend on the order in which the store happened to list them. */
module Entries {
  type Id = string

  datatype Option<+T> = None | Some(value: T)

  /** One vector component: JSON numbers are finite, Go floats need not be. */
  datatype Float = Finite(r: real) | NonFinite

  type Vector = seq<Float>

  datatype Entry = Entry(id: Id, prompt: string, reply: string, vector: Vector, createdAt: int)

  /** Taking the last element off a concatenation. */
  lemma SplitLast<T>(h: seq<T>, g: seq<T>)
    requires g != []
    ensures (h + g)[..|h + g| - 1] == h + g[..|g| - 1] && (h + g)[|h + g| - 1] == g[|g| - 1]
    ensures g == g[..|g| - 1] + [g[|g| - 1]]
  {}

  predicate IdChar(c: char) {
    'A' <= c <= 'Z' || 'a' <= c <= 'z' || '0' <= c <= '9' || c in {'.', '_', '~', '-'}
  }

  /** The id rule of the plugin protocol: safe as one segment of a URL path. */
  predicate ValidId(id: Id) {
    1 <= |id| <= 128 && id != "." && id != ".." && forall i :: 0 <= i < |id| ==> IdChar(id[i])
  }

  /** The rule as a pattern: one to 128 of `A-Za-z0-9._~-`, and no path segment with a meaning. */
  lemma ValidIdMeans(id: Id)
    ensures ValidId(id) <==>
              && 1 <= |id| <= 128 && id != "." && id != ".."
              && forall c :: c in id ==>
                   || ('A' <= c && c <= 'Z') || ('a' <= c && c <= 'z') || ('0' <= c && c <= '9')
                   || c == '.' || c == '_' || c == '~' || c == '-'
  {
    forall i | 0 <= i < |id| ensures id[i] in id {}
  }

  // ---- the order of strings and entries ----------------------------------------

  /** Go's `<` on strings: lexicographic. */
  predicate LexLess(a: string, b: string) {
    if b == "" then false
    else if a == "" then true
    else a[0] < b[0] || (a[0] == b[0] && LexLess(a[1..], b[1..]))
  }

  /** `a` and `b` agree up to position `k`, and there `a` ends or has the smaller character. */
  ghost predicate SmallerAt(a: string, b: string, k: nat) {
    k <= |a| && k < |b| && a[..k] == b[..k] && (k == |a| || a[k] < b[k])
  }

  /** A proper prefix comes first; otherwise the first difference decides. */
  lemma {:induction false} LexLessMeans(a: string, b: string)
    ensures LexLess(a, b) <==> exists k: nat :: SmallerAt(a, b, k)
  {
    if a == "" || b == "" || a[0] != b[0] {
      assert SmallerAt(a, b, 0) <==> LexLess(a, b);
      forall k: nat | SmallerAt(a, b, k) ensures LexLess(a, b) {
        if k > 0 { assert a[..k][0] == b[..k][0]; }
      }
    } else {
      LexLessMeans(a[1..], b[1..]);
      forall k: nat ensures SmallerAt(a, b, k + 1) <==> SmallerAt(a[1..], b[1..], k) { PastFirstChar(a, b, k); }
      assert !SmallerAt(a, b, 0);
      forall k: nat | SmallerAt(a, b, k) ensures LexLess(a, b) { assert SmallerAt(a[1..], b[1..], k - 1); }
    }
  }

  lemma PastFirstChar(a: string, b: string, k: nat)
    requires a != "" && b != "" && a[0] == b[0]
    ensures SmallerAt(a, b, k + 1) <==> SmallerAt(a[1..], b[1..], k)
  {
    if k + 1 <= |a| && k + 1 <= |b| {
      assert a[..k + 1] == [a[0]] + a[1..][..k] && b[..k + 1] == [b[0]] + b[1..][..k];
      assert a[..k + 1][1..] == a[1..][..k] && b[..k + 1][1..] == b[1..][..k];
    }
  }

  lemma {:induction false} LexTotal(a: string, b: string)
    ensures a == b || LexLess(a, b) || LexLess(b, a)
  {
    if a != "" && b != "" && a[0] == b[0] {
      LexTotal(a[1..], b[1..]);
      assert a == [a[0]] + a[1..] && b == [b[0]] + b[1..];
    }
  }

  lemma {:induction false} LexTransitive(a: string, b: string, c: string)
    requires LexLess(a, b) && LexLess(b, c)
    ensures LexLess(a, c)
  {
    if a != "" && a[0] == b[0] && b[0] == c[0] {
      LexTransitive(a[1..], b[1..], c[1..]);
    }
  }

  lemma {:induction false} LexIrreflexive(a: string)
    ensures !LexLess(a, a)
  {
    if a != "" { LexIrreflexive(a[1..]); }
  }

  /** The comparison used by `sortedEntries`: creation time, then id. */
  predicate Before(x: Entry, y: Entry) {
    if x.createdAt != y.createdAt then x.createdAt < y.createdAt else LexLess(x.id, y.id)
  }

  lemma BeforeTotal(x: Entry, y: Entry)
    ensures x.id != y.id ==> Before(x, y) || Before(y, x)
    ensures !(Before(x, y) && Before(y, x))
  {
    LexTotal(x.id, y.id);
    if LexLess(x.id, y.id) && LexLess(y.id, x.id) {
      LexTransitive(x.id, y.id, x.id);
      LexIrreflexive(x.id);
    }
  }

  lemma BeforeTransitive(x: Entry, y: Entry, z: Entry)
    requires !Before(y, x) && !Before(z, y)
    ensures !Before(z, x)
  {
    if Before(z, x) {
      LexTotal(x.id, y.id);
      LexTotal(y.id, z.id);
      if x.createdAt == y.createdAt && y.createdAt == z.createdAt {
        if LexLess(x.id, y.id) && LexLess(y.id, z.id) { LexTransitive(x.id, y.id, z.id); }
        BeforeTotal(x, z);
      }
    }
  }

  // ---- sorting ------------------------------------------------------------------

  /** Oldest first; of two created at the same time, not the one with the greater id first. */
  ghost predicate Sorted(s: seq<Entry>) {
    forall i, j :: 0 <= i < j < |s| ==>
      || s[i].createdAt < s[j].createdAt
      || (s[i].createdAt == s[j].createdAt && !LexLess(s[j].id, s[i].id))
  }

  /** The same of ids of stored entries: older ones first, then by id. */
  ghost predicate InCreationOrder(ids: seq<Id>, store: map<Id, Entry>) {
    && (forall id :: id in ids ==> id in store)
    && forall i, j :: 0 <= i < j < |ids| ==>
         || store[ids[i]].createdAt < store[ids[j]].createdAt
         || (store[ids[i]].createdAt == store[ids[j]].createdAt && LexLess(ids[i], ids[j]))
  }

  lemma SortedIsCreationOrder(s: seq<Entry>, store: map<Id, Entry>)
    requires Sorted(s) && IsListing(s, store)
    ensures InCreationOrder(IdsOf(s), store)
  {
    var ids := IdsOf(s);
    forall i | 0 <= i < |ids| ensures ids[i] in store && store[ids[i]] == s[i] { assert s[i] in s; }
    forall i, j | 0 <= i < j < |ids| ensures s[i].createdAt == s[j].createdAt ==> LexLess(ids[i], ids[j]) {
      LexTotal(ids[i], ids[j]);
    }
  }

  ghost predicate DistinctIds(s: seq<Entry>) {
    forall i, j :: 0 <= i < j < |s| ==> s[i].id != s[j].id
  }

  function IdsOf(s: seq<Entry>): (r: seq<Id>)
    ensures |r| == |s| && forall i :: 0 <= i < |s| ==> r[i] == s[i].id
  {
    seq(|s|, i requires 0 <= i < |s| => s[i].id)
  }

  function InsertEntry(e: Entry, s: seq<Entry>): (r: seq<Entry>)
    ensures multiset(r) == multiset(s) + multiset{e}
  {
    if s == [] || !Before(s[0], e) then [e] + s
    else
      assert s == [s[0]] + s[1..];
      [s[0]] + InsertEntry(e, s[1..])
  }

  /** `sort.SliceStable` with the comparison above. */
  function SortEntries(s: seq<Entry>): (r: seq<Entry>)
    ensures multiset(r) == multiset(s)
  {
    if s == [] then []
    else
      assert s == [s[0]] + s[1..];
      InsertEntry(s[0], SortEntries(s[1..]))
  }

  lemma {:induction false} InsertSorted(e: Entry, s: seq<Entry>)
    requires Sorted(s)
    ensures Sorted(InsertEntry(e, s))
  {
    if s != [] && !Before(s[0], e) {
      forall k | 0 <= k < |s| ensures !Before(s[k], e) {
        if k > 0 { BeforeTransitive(e, s[0], s[k]); }
      }
      SortedInFront(e, s);
    } else if s != [] {
      InsertSorted(e, s[1..]);
      var t := InsertEntry(e, s[1..]);
      forall k | 0 <= k < |t| ensures !Before(t[k], s[0]) {
        assert t[k] in multiset(t);
        if t[k] == e {
          BeforeTotal(s[0], e);
        } else {
          assert t[k] in s[1..];
        }
      }
      SortedInFront(s[0], t);
    }
  }

  lemma SortedInFront(e: Entry, t: seq<Entry>)
    requires Sorted(t) && forall k :: 0 <= k < |t| ==> !Before(t[k], e)
    ensures Sorted([e] + t)
  {
    var r := [e] + t;
    forall i, j | 0 <= i < j < |r|
      ensures r[i].createdAt < r[j].createdAt || (r[i].createdAt == r[j].createdAt && !LexLess(r[j].id, r[i].id))
    {
      if i == 0 { assert !Before(t[j - 1], e); }
    }
  }

  lemma {:induction false} SortSorts(s: seq<Entry>)
    ensures Sorted(SortEntries(s))
  {
    if s != [] {
      SortSorts(s[1..]);
      InsertSorted(s[0], SortEntries(s[1..]));
    }
  }

  /** Two sorted arrangements of the same uniquely identified entries are equal. */
  lemma {:induction false} SortedUnique(a: seq<Entry>, b: seq<Entry>)
    requires multiset(a) == multiset(b)
    requires Sorted(a) && Sorted(b) && DistinctIds(a)
    ensures a == b
  {
    assert |a| == |b| by { assert |a| == |multiset(a)| && |b| == |multiset(b)|; }
    if a != [] {
      SameHead(a, b);
      SameTail(a, b);
      SortedUnique(a[1..], b[1..]);
      assert a == [a[0]] + a[1..] && b == [b[0]] + b[1..];
    }
  }

  /** Equal multisets with equal first elements have equal rests. */
  lemma SameTail<T>(a: seq<T>, b: seq<T>)
    requires multiset(a) == multiset(b) && a != [] && b != [] && a[0] == b[0]
    ensures multiset(a[1..]) == multiset(b[1..])
  {
    assert a == [a[0]] + a[1..] && b == [b[0]] + b[1..];
    assert multiset(a[1..]) == multiset(a) - multiset{a[0]};
    assert multiset(b[1..]) == multiset(b) - multiset{b[0]};
  }

  lemma SameHead(a: seq<Entry>, b: seq<Entry>)
    requires multiset(a) == multiset(b) && a != [] && b != []
    requires Sorted(a) && Sorted(b) && DistinctIds(a)
    ensures a[0] == b[0]
  {
    assert a[0] in multiset(b) && b[0] in multiset(a);
    var i :| 0 <= i < |a| && a[i] == b[0];
    var j :| 0 <= j < |b| && b[j] == a[0];
    BeforeTotal(a[0], b[0]);
  }

  // ---- listings of a store --------------------------------------------------------

  /** A store maps each id to an entry carrying that id. */
  ghost predicate WellKeyed(store: map<Id, Entry>) {
    forall id :: id in store ==> store[id].id == id
  }

  /** `l` lists every entry of `store` exactly once, in any order. */
  ghost predicate IsListing(l: seq<Entry>, store: map<Id, Entry>) {
    && DistinctIds(l)
    && (forall e :: e in l ==> e.id in store && store[e.id] == e)
    && (forall id :: id in store ==> store[id] in l)
  }

  lemma {:induction false} DistinctMultiset(l: seq<Entry>, e: Entry)
    requires DistinctIds(l)
    ensures multiset(l)[e] == if e in l then 1 else 0
  {
    if l != [] {
      assert l == [l[0]] + l[1..];
      DistinctMultiset(l[1..], e);
    }
  }

  lemma PermutedDistinct(a: seq<Entry>, b: seq<Entry>)
    requires multiset(a) == multiset(b) && DistinctIds(a)
    ensures DistinctIds(b)
  {
    forall i, j | 0 <= i < j < |b| ensures b[i].id != b[j].id {
      if b[i].id == b[j].id {
        assert b[i] in multiset(a) && b[j] in multiset(a);
        assert b[i] == b[j];
        assert b == b[..i] + [b[i]] + b[i + 1..j] + [b[j]] + b[j + 1..];
        assert multiset(b)[b[i]] >= 2;
        DistinctMultiset(a, b[i]);
      }
    }
  }

  lemma ListingsPermute(a: seq<Entry>, b: seq<Entry>, store: map<Id, Entry>)
    requires IsListing(a, store) && IsListing(b, store)
    ensures multiset(a) == multiset(b)
  {
    forall e ensures multiset(a)[e] == multiset(b)[e] {
      DistinctMultiset(a, e);
      DistinctMultiset(b, e);
    }
  }

  /** Any rearrangement of a listing is a listing. */
  lemma RearrangedListing(a: seq<Entry>, b: seq<Entry>, store: map<Id, Entry>)
    requires IsListing(a, store) && multiset(a) == multiset(b)
    ensures IsListing(b, store)
  {
    PermutedDistinct(a, b);
    forall e ensures e in a <==> e in b {
      assert e in multiset(a) <==> e in multiset(b);
    }
  }

  /** Whatever order the store lists its entries in, sorting gives one sequence. */
  lemma SortedListingUnique(a: seq<Entry>, b: seq<Entry>, store: map<Id, Entry>)
    requires IsListing(a, store) && IsListing(b, store)
    ensures SortEntries(a) == SortEntries(b)
    ensures IsListing(SortEntries(a), store)
  {
    ListingsPermute(a, b, store);
    SortSorts(a);
    SortSorts(b);
    RearrangedListing(a, SortEntries(a), store);
    SortedUnique(SortEntries(a), SortEntries(b));
  }

  lemma ListingTail(l: seq<Entry>, store: map<Id, Entry>)
    requires IsListing(l, store) && l != [] && WellKeyed(store)
    ensures IsListing(l[1..], store - {l[0].id})
  {
    var rest := store - {l[0].id};
    assert DistinctIds(l[1..]);
    forall e | e in l[1..] ensures e.id in rest && rest[e.id] == e {
      var k :| 1 <= k < |l| && l[k] == e;
      assert l[k] in l && l[0].id != l[k].id;
    }
    forall id | id in rest ensures rest[id] in l[1..] {
      var e := store[id];
      assert e in l && e.id == id;
      var k :| 0 <= k < |l| && l[k] == e;
      assert k != 0 && l[1..][k - 1] == e;
    }
  }

  lemma {:induction false} ListingSize(l: seq<Entry>, store: map<Id, Entry>)
    requires IsListing(l, store) && WellKeyed(store)
    ensures |l| == |store|
  {
    if l != [] {
      ListingTail(l, store);
      assert l[0] in l;
      var rest := store - {l[0].id};
      ListingSize(l[1..], rest);
      assert store.Keys == rest.Keys + {l[0].id};
      assert |store| == |store.Keys| && |rest| == |rest.Keys|;
    }
  }

  lemma ListedIds(l: seq<Entry>, store: map<Id, Entry>)
    requires IsListing(l, store) && WellKeyed(store)
    ensures (set id | id in IdsOf(l)) == store.Keys
  {
    forall id | id in store ensures id in IdsOf(l) {
      assert store[id] in l;
      var i :| 0 <= i < |l| && l[i] == store[id];
      assert IdsOf(l)[i] == id;
    }
    forall id | id in IdsOf(l) ensures id in store {
      var i :| 0 <= i < |l| && l[i].id == id;
      assert l[i] in l;
    }
  }

  // ---- rebuild requests ---------------------------------------------------------------

  function VectorsOf(store: map<Id, Entry>): map<Id, Vector> {
    map id | id in store :: store[id].vector
  }

  /** The id-to-vector map a rebuild request for `l` describes. */
  function RebuildMap(l: seq<Entry>): map<Id, Vector> {
    if l == [] then map[]
    else RebuildMap(l[..|l| - 1])[l[|l| - 1].id := l[|l| - 1].vector]
  }

  lemma RebuildMapStep(l: seq<Entry>, i: nat)
    requires i < |l|
    ensures RebuildMap(l[..i + 1]) == RebuildMap(l[..i])[l[i].id := l[i].vector]
  {
    assert l[..i + 1][..i] == l[..i];
  }

  lemma {:induction false} RebuildMapKeys(l: seq<Entry>)
    requires DistinctIds(l)
    ensures forall id :: id in RebuildMap(l) ==> exists e :: e in l && e.id == id
    ensures forall e :: e in l ==> e.id in RebuildMap(l) && RebuildMap(l)[e.id] == e.vector
  {
    if l != [] {
      var k := |l| - 1;
      RebuildMapKeys(l[..k]);
      assert l == l[..k] + [l[k]];
      forall id | id in RebuildMap(l) ensures exists e :: e in l && e.id == id {
        if id in RebuildMap(l[..k]) {
          var e :| e in l[..k] && e.id == id;
          assert e in l;
        } else {
          assert l[k] in l;
        }
      }
      forall e | e in l ensures e.id in RebuildMap(l) && RebuildMap(l)[e.id] == e.vector {
        var i :| 0 <= i < |l| && l[i] == e;
        if i < k { assert l[i] in l[..k]; }
      }
    }
  }

  /** Rebuilding from any listing of a store reproduces the store's vectors. */
  lemma RebuildMapOfListing(l: seq<Entry>, store: map<Id, Entry>)
    requires IsListing(l, store) && WellKeyed(store)
    ensures RebuildMap(l) == VectorsOf(store)
  {
    RebuildMapKeys(l);
    forall id | id in store ensures id in RebuildMap(l) && RebuildMap(l)[id] == store[id].vector {
      assert store[id] in l;
    }
    forall id | id in RebuildMap(l) ensures id in store {
      var e :| e in l && e.id == id;
    }
  }
}
