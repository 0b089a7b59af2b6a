/** Nearest-K search over reals: taking the K nearest by raw score and then filtering by
    distance, against filtering everything and then taking the K best. */
module Nearest {
  import Entries

  /** A stored vector's integer id with its raw score for the query, turned round where
      the metric needs it so that a smaller key is nearer. */
  datatype Hit = Hit(id: int, key: real)

  // ---- sorting reals ---------------------------------------------------------------------

  ghost predicate Ascending(s: seq<real>) {
    forall i, j :: 0 <= i < j < |s| ==> s[i] <= s[j]
  }

  function InsertReal(x: real, s: seq<real>): (r: seq<real>)
    ensures multiset(r) == multiset(s) + multiset{x}
  {
    if s == [] || x <= s[0] then [x] + s
    else
      assert s == [s[0]] + s[1..];
      [s[0]] + InsertReal(x, s[1..])
  }

  function SortReals(s: seq<real>): (r: seq<real>)
    ensures multiset(r) == multiset(s)
  {
    if s == [] then []
    else
      assert s == [s[0]] + s[1..];
      InsertReal(s[0], SortReals(s[1..]))
  }

  lemma {:induction false} InsertAscending(x: real, s: seq<real>)
    requires Ascending(s)
    ensures Ascending(InsertReal(x, s))
  {
    if s != [] && x > s[0] {
      InsertAscending(x, s[1..]);
      var t := InsertReal(x, s[1..]);
      forall j | 0 <= j < |t| ensures s[0] <= t[j] {
        assert t[j] in multiset(t);
        if t[j] != x { assert t[j] in s[1..]; }
      }
    }
  }

  lemma {:induction false} SortAscending(s: seq<real>)
    ensures Ascending(SortReals(s))
  {
    if s != [] {
      SortAscending(s[1..]);
      InsertAscending(s[0], SortReals(s[1..]));
    }
  }

  lemma {:induction false} AscendingUnique(a: seq<real>, b: seq<real>)
    requires Ascending(a) && Ascending(b) && multiset(a) == multiset(b)
    ensures a == b
  {
    assert |a| == |b| by { assert |a| == |multiset(a)| && |b| == |multiset(b)|; }
    if a != [] {
      LeastFirst(a, b);
      LeastFirst(b, a);
      Entries.SameTail(a, b);
      AscendingUnique(a[1..], b[1..]);
      assert a == [a[0]] + a[1..] && b == [b[0]] + b[1..];
    }
  }

  lemma LeastFirst(a: seq<real>, b: seq<real>)
    requires Ascending(a) && multiset(a) == multiset(b) && a != [] && b != []
    ensures a[0] <= b[0]
  {
    assert b[0] in multiset(a);
    var i :| 0 <= i < |a| && a[i] == b[0];
  }

  lemma AscendingConcat(a: seq<real>, b: seq<real>)
    requires Ascending(a) && Ascending(b) && forall i, j :: 0 <= i < |a| && 0 <= j < |b| ==> a[i] <= b[j]
    ensures Ascending(a + b)
  {}

  lemma SortDependsOnMultiset(a: seq<real>, b: seq<real>)
    requires multiset(a) == multiset(b)
    ensures SortReals(a) == SortReals(b)
  {
    SortAscending(a);
    SortAscending(b);
    AscendingUnique(SortReals(a), SortReals(b));
  }

  // ---- filtering by the threshold ------------------------------------------------------------

  function AtMost(s: seq<real>, t: real): seq<real> {
    if s == [] then [] else (if s[0] <= t then [s[0]] else []) + AtMost(s[1..], t)
  }

  lemma {:induction false} AtMostCounts(s: seq<real>, t: real, x: real)
    ensures multiset(AtMost(s, t))[x] == if x <= t then multiset(s)[x] else 0
  {
    if s != [] {
      AtMostCounts(s[1..], t, x);
      assert s == [s[0]] + s[1..];
    }
  }

  lemma AtMostPermutes(a: seq<real>, b: seq<real>, t: real)
    requires multiset(a) == multiset(b)
    ensures multiset(AtMost(a, t)) == multiset(AtMost(b, t))
  {
    forall x ensures multiset(AtMost(a, t))[x] == multiset(AtMost(b, t))[x] {
      AtMostCounts(a, t, x);
      AtMostCounts(b, t, x);
    }
  }

  lemma {:induction false} AtMostNone(s: seq<real>, t: real)
    requires forall i :: 0 <= i < |s| ==> s[i] > t
    ensures AtMost(s, t) == []
  {
    if s != [] { AtMostNone(s[1..], t); }
  }

  /** In an ascending sequence the values within the threshold are a prefix. */
  lemma {:induction false} AtMostIsPrefix(s: seq<real>, t: real)
    requires Ascending(s)
    ensures AtMost(s, t) <= s
  {
    if s != [] {
      if s[0] <= t {
        AtMostIsPrefix(s[1..], t);
        assert s == [s[0]] + s[1..];
      } else {
        AtMostNone(s, t);
      }
    }
  }

  lemma {:induction false} AtMostAppend(a: seq<real>, b: seq<real>, t: real)
    ensures AtMost(a + b, t) == AtMost(a, t) + AtMost(b, t)
  {
    if a == [] {
      assert a + b == b;
    } else {
      AtMostAppend(a[1..], b, t);
      assert (a + b)[1..] == a[1..] + b && (a + b)[0] == a[0];
      Associate(if a[0] <= t then [a[0]] else [], AtMost(a[1..], t), AtMost(b, t));
    }
  }

  lemma Associate(a: seq<real>, b: seq<real>, c: seq<real>)
    ensures a + (b + c) == (a + b) + c
  {}

  function Take(s: seq<real>, k: nat): seq<real> {
    if |s| <= k then s else s[..k]
  }

  /** On an ascending sequence, filtering and taking the first `k` commute. */
  lemma FilterTakeCommute(s: seq<real>, k: nat, t: real)
    requires Ascending(s)
    ensures AtMost(Take(s, k), t) == Take(AtMost(s, t), k)
  {
    if |s| > k {
      assert s == s[..k] + s[k..];
      AtMostAppend(s[..k], s[k..], t);
      AtMostIsPrefix(s[..k], t);
      if |AtMost(s[..k], t)| < k { NothingBeyond(s, k, t); }
    } else {
      AtMostIsPrefix(s, t);
    }
  }

  /** If the first `k` are not all within the threshold, nothing after them is. */
  lemma NothingBeyond(s: seq<real>, k: nat, t: real)
    requires Ascending(s) && k <= |s| && |AtMost(s[..k], t)| < k
    ensures AtMost(s[k..], t) == []
  {
    var c := |AtMost(s[..k], t)|;
    if s[c] <= t { DropsNothing(s[..k], t, c); }
    forall i | 0 <= i < |s[k..]| ensures s[k..][i] > t { assert s[c] <= s[k + i]; }
    AtMostNone(s[k..], t);
  }

  lemma {:induction false} DropsNothing(s: seq<real>, t: real, c: nat)
    requires Ascending(s) && c < |s| && s[c] <= t
    ensures |AtMost(s, t)| > c
  {
    if c > 0 { DropsNothing(s[1..], t, c - 1); }
  }

  // ---- the two searches --------------------------------------------------------------------------

  function Keys(hits: seq<Hit>): (r: seq<real>)
    ensures |r| == |hits| && forall i :: 0 <= i < |hits| ==> r[i] == hits[i].key
  {
    seq(|hits|, i requires 0 <= i < |hits| => hits[i].key)
  }

  function MapDist(dist: real -> real, keys: seq<real>): (r: seq<real>)
    ensures |r| == |keys| && forall i :: 0 <= i < |keys| ==> r[i] == dist(keys[i])
  {
    seq(|keys|, i requires 0 <= i < |keys| => dist(keys[i]))
  }

  ghost predicate NearestFirst(hits: seq<Hit>) {
    forall i, j :: 0 <= i < j < |hits| ==> hits[i].key <= hits[j].key
  }

  ghost predicate Splits(all: seq<Hit>, picked: seq<Hit>, rest: seq<Hit>) {
    && multiset(all) == multiset(picked) + multiset(rest)
    && forall p, r :: p in picked && r in rest ==> p.key <= r.key
  }

  /** What FAISS may answer: `k` of the stored vectors, none farther than one left out,
      nearest first. Ties are broken as it likes. */
  ghost predicate IsTopK(all: seq<Hit>, k: nat, picked: seq<Hit>) {
    && |picked| == (if k <= |all| then k else |all|)
    && NearestFirst(picked)
    && exists rest :: Splits(all, picked, rest)
  }

  /** The distances reported after the K nearest have been taken first. */
  function TopThenFilter(picked: seq<Hit>, dist: real -> real, t: real, k: nat): seq<real> {
    Take(SortReals(AtMost(MapDist(dist, Keys(picked)), t)), k)
  }

  /** The distances reported by a full scan. */
  function FilterThenTop(all: seq<Hit>, dist: real -> real, t: real, k: nat): seq<real> {
    Take(SortReals(AtMost(MapDist(dist, Keys(all)), t)), k)
  }

  /** A nearer key never has a larger distance, among the keys that occur. */
  ghost predicate MonotoneOn(dist: real -> real, all: seq<Hit>) {
    forall x, y :: x in all && y in all && x.key <= y.key ==> dist(x.key) <= dist(y.key)
  }

  /** What one more hit adds to the distances within the threshold. */
  lemma OneMoreHit(hits: seq<Hit>, i: nat, dist: real -> real, t: real)
    requires i < |hits|
    ensures AtMost(MapDist(dist, Keys(hits[..i + 1])), t)
         == AtMost(MapDist(dist, Keys(hits[..i])), t) + if dist(hits[i].key) <= t then [dist(hits[i].key)] else []
  {
    assert MapDist(dist, Keys(hits[..i + 1])) == MapDist(dist, Keys(hits[..i])) + [dist(hits[i].key)];
    AtMostAppend(MapDist(dist, Keys(hits[..i])), [dist(hits[i].key)], t);
  }

  lemma DistancesAppend(a: seq<Hit>, b: seq<Hit>, dist: real -> real)
    ensures MapDist(dist, Keys(a + b)) == MapDist(dist, Keys(a)) + MapDist(dist, Keys(b))
  {}

  lemma DistancesWithout(s: seq<Hit>, i: nat, dist: real -> real)
    requires i < |s|
    ensures multiset(s[..i] + s[i + 1..]) == multiset(s) - multiset{s[i]}
    ensures multiset(MapDist(dist, Keys(s)))
         == multiset(MapDist(dist, Keys(s[..i] + s[i + 1..]))) + multiset{dist(s[i].key)}
  {
    var d := MapDist(dist, Keys(s));
    assert s == s[..i] + [s[i]] + s[i + 1..];
    assert d == d[..i] + [d[i]] + d[i + 1..];
    assert MapDist(dist, Keys(s[..i] + s[i + 1..])) == d[..i] + d[i + 1..];
  }

  lemma {:induction false} DistancesPermute(a: seq<Hit>, b: seq<Hit>, dist: real -> real)
    requires multiset(a) == multiset(b)
    ensures multiset(MapDist(dist, Keys(a))) == multiset(MapDist(dist, Keys(b)))
  {
    if a == [] {
      NothingElse(b);
    } else {
      var i := FoundIn(a[0], b);
      SameWithout(a, b, i, dist);
      DistancesPermute(a[..0] + a[1..], b[..i] + b[i + 1..], dist);
    }
  }

  /** Taking the same hit out of both. */
  lemma SameWithout(a: seq<Hit>, b: seq<Hit>, i: nat, dist: real -> real)
    requires multiset(a) == multiset(b) && a != [] && i < |b| && b[i] == a[0]
    ensures var a', b' := a[..0] + a[1..], b[..i] + b[i + 1..];
            && |a'| < |a| && multiset(a') == multiset(b')
            && (multiset(MapDist(dist, Keys(a'))) == multiset(MapDist(dist, Keys(b'))) ==>
                  multiset(MapDist(dist, Keys(a))) == multiset(MapDist(dist, Keys(b))))
  {
    DistancesWithout(a, 0, dist);
    DistancesWithout(b, i, dist);
  }

  lemma NothingElse(b: seq<Hit>)
    requires multiset(b) == multiset{}
    ensures b == []
  {
    assert |b| == |multiset(b)|;
  }

  lemma FoundIn(h: Hit, b: seq<Hit>) returns (i: nat)
    requires h in multiset(b)
    ensures i < |b| && b[i] == h
  {
    i :| 0 <= i < |b| && b[i] == h;
  }

  /** The K nearest have the K smallest distances. */
  lemma TopKDistances(all: seq<Hit>, k: nat, picked: seq<Hit>, dist: real -> real)
    requires IsTopK(all, k, picked) && MonotoneOn(dist, all)
    ensures MapDist(dist, Keys(picked)) == Take(SortReals(MapDist(dist, Keys(all))), k)
  {
    var rest :| Splits(all, picked, rest);
    var dp, dr, s := MapDist(dist, Keys(picked)), MapDist(dist, Keys(rest)), SortReals(MapDist(dist, Keys(rest)));
    SplitMembers(all, picked, rest);
    PickedThenRestAscend(all, picked, rest, dist);
    SplitDistances(all, picked, rest, dist);
    SortAscending(dr);
    SortAscending(MapDist(dist, Keys(all)));
    AscendingUnique(dp + s, SortReals(MapDist(dist, Keys(all))));
    assert |all| == |picked| + |rest| by { SameSize(all, picked + rest); }
  }

  lemma SplitMembers(all: seq<Hit>, picked: seq<Hit>, rest: seq<Hit>)
    requires multiset(all) == multiset(picked) + multiset(rest)
    ensures forall h :: h in picked || h in rest <==> h in all
  {
    forall h ensures h in picked || h in rest <==> h in all {
      assert h in multiset(all) <==> h in multiset(picked) + multiset(rest);
    }
  }

  lemma SplitDistances(all: seq<Hit>, picked: seq<Hit>, rest: seq<Hit>, dist: real -> real)
    requires multiset(all) == multiset(picked) + multiset(rest)
    ensures multiset(MapDist(dist, Keys(all)))
         == multiset(MapDist(dist, Keys(picked))) + multiset(MapDist(dist, Keys(rest)))
  {
    assert multiset(all) == multiset(picked + rest);
    DistancesPermute(all, picked + rest, dist);
    DistancesAppend(picked, rest, dist);
  }

  lemma PickedThenRestAscend(all: seq<Hit>, picked: seq<Hit>, rest: seq<Hit>, dist: real -> real)
    requires NearestFirst(picked) && Splits(all, picked, rest) && MonotoneOn(dist, all)
    requires forall h :: h in picked || h in rest <==> h in all
    ensures Ascending(MapDist(dist, Keys(picked)) + SortReals(MapDist(dist, Keys(rest))))
  {
    var dp, dr, s := MapDist(dist, Keys(picked)), MapDist(dist, Keys(rest)), SortReals(MapDist(dist, Keys(rest)));
    SortAscending(dr);
    forall i, j | 0 <= i < j < |dp| ensures dp[i] <= dp[j] {
      assert picked[i] in all && picked[j] in all;
    }
    forall i, j | 0 <= i < |dp| && 0 <= j < |s| ensures dp[i] <= s[j] {
      assert s[j] in multiset(dr);
      var r :| 0 <= r < |dr| && dr[r] == s[j];
      assert picked[i] in picked && rest[r] in rest;
    }
    AscendingConcat(dp, s);
  }

  lemma SortFilterCommute(d: seq<real>, t: real)
    ensures SortReals(AtMost(d, t)) == AtMost(SortReals(d), t)
  {
    SortAscending(d);
    AtMostIsPrefix(SortReals(d), t);
    AtMostPermutes(d, SortReals(d), t);
    SortAscending(AtMost(d, t));
    AscendingUnique(SortReals(AtMost(d, t)), AtMost(SortReals(d), t));
  }

  lemma SortIdempotent(s: seq<real>)
    requires Ascending(s)
    ensures SortReals(s) == s
  {
    SortAscending(s);
    AscendingUnique(SortReals(s), s);
  }

  /** Nearest K then filter = filter then best K, whatever the ties, for any distance
      that is monotone in the score. */
  lemma TopKSearchIsExact(all: seq<Hit>, k: nat, picked: seq<Hit>, dist: real -> real, t: real)
    requires IsTopK(all, k, picked) && MonotoneOn(dist, all)
    ensures TopThenFilter(picked, dist, t, k) == FilterThenTop(all, dist, t, k)
  {
    var d := MapDist(dist, Keys(all));
    SortAscending(d);
    TopKDistances(all, k, picked, dist);
    SortFilterCommute(d, t);
    TakenThenFiltered(SortReals(d), k, t);
  }

  lemma TakenThenFiltered(s: seq<real>, k: nat, t: real)
    requires Ascending(s)
    ensures Take(SortReals(AtMost(Take(s, k), t)), k) == Take(AtMost(s, t), k)
  {
    FilterTakeCommute(s, k, t);
    var r := AtMost(Take(s, k), t);
    assert Ascending(r) by { AtMostIsPrefix(Take(s, k), t); }
    SortIdempotent(r);
  }

  // ---- monotonicity is needed --------------------------------------------------------------------

  function InsertHit(x: Hit, s: seq<Hit>): (r: seq<Hit>)
    ensures multiset(r) == multiset(s) + multiset{x}
  {
    if s == [] || x.key <= s[0].key then [x] + s
    else
      assert s == [s[0]] + s[1..];
      [s[0]] + InsertHit(x, s[1..])
  }

  function SortHits(s: seq<Hit>): (r: seq<Hit>)
    ensures multiset(r) == multiset(s)
  {
    if s == [] then []
    else
      assert s == [s[0]] + s[1..];
      InsertHit(s[0], SortHits(s[1..]))
  }

  lemma {:induction false} SortHitsNearestFirst(s: seq<Hit>)
    ensures NearestFirst(SortHits(s))
  {
    if s != [] {
      SortHitsNearestFirst(s[1..]);
      InsertHitNearestFirst(s[0], SortHits(s[1..]));
    }
  }

  lemma {:induction false} InsertHitNearestFirst(x: Hit, s: seq<Hit>)
    requires NearestFirst(s)
    ensures NearestFirst(InsertHit(x, s))
  {
    if s != [] && x.key > s[0].key {
      InsertHitNearestFirst(x, s[1..]);
      var t := InsertHit(x, s[1..]);
      forall j | 0 <= j < |t| ensures s[0].key <= t[j].key {
        assert t[j] in multiset(t);
        if t[j] != x { assert t[j] in s[1..]; }
      }
    }
  }

  lemma {:induction false} AtMostShorter(s: seq<real>, t: real, i: nat)
    requires i < |s|
    ensures |AtMost(s, t)| <= |s|
    ensures s[i] > t ==> |AtMost(s, t)| < |s|
    ensures s[i] <= t ==> |AtMost(s, t)| > 0
  {
    if i > 0 {
      AtMostShorter(s[1..], t, i - 1);
    } else if |s| > 1 {
      AtMostShorter(s[1..], t, 0);
    }
  }

  /** If a nearer stored vector has the larger distance, some answer FAISS may give loses a
      match a full scan reports: together with the lemma above, the searches agree for
      every K and threshold exactly when the distance is monotone on what is stored. */
  lemma NotMonotoneLosesMatches(all: seq<Hit>, dist: real -> real) returns (k: nat, picked: seq<Hit>, t: real)
    requires !MonotoneOn(dist, all)
    ensures k >= 1 && IsTopK(all, k, picked)
    ensures |TopThenFilter(picked, dist, t, k)| < |FilterThenTop(all, dist, t, k)|
  {
    var near, far :| near in all && far in all && near.key <= far.key && dist(near.key) > dist(far.key);
    var s := SortHits(all);
    SortHitsNearestFirst(all);
    var a := Position(all, s, near);
    var b := Position(all, s, far);
    NearerComesFirst(s, dist, a, b);
    k, t := a + 1, dist(s[b].key);
    picked := LosesFarther(all, s, dist, a, b);
  }

  /** Taking the hits up to the nearer one loses the farther one with the smaller distance. */
  lemma LosesFarther(all: seq<Hit>, s: seq<Hit>, dist: real -> real, a: nat, b: nat) returns (picked: seq<Hit>)
    requires multiset(s) == multiset(all) && NearestFirst(s) && a < b < |s| && dist(s[a].key) > dist(s[b].key)
    ensures var t := dist(s[b].key);
            && IsTopK(all, a + 1, picked)
            && |TopThenFilter(picked, dist, t, a + 1)| < |FilterThenTop(all, dist, t, a + 1)|
  {
    var rest;
    picked, rest := CutIsTopK(all, s, a + 1);
    assert |picked| == a + 1 && picked[a] == s[a] && rest[b - (a + 1)] == s[b];
    CutLoses(all, picked, rest, dist, dist(s[b].key), a, b - (a + 1));
  }

  lemma NearerComesFirst(s: seq<Hit>, dist: real -> real, a: nat, b: nat)
    requires NearestFirst(s) && a < |s| && b < |s|
    requires s[a].key <= s[b].key && dist(s[a].key) > dist(s[b].key)
    ensures a < b
  {}

  /** The first `k` of all stored vectors in order of nearness are a possible answer. */
  lemma CutIsTopK(all: seq<Hit>, s: seq<Hit>, k: nat) returns (picked: seq<Hit>, rest: seq<Hit>)
    requires multiset(s) == multiset(all) && NearestFirst(s) && k <= |s|
    ensures picked == s[..k] && rest == s[k..] && IsTopK(all, k, picked)
    ensures multiset(all) == multiset(picked + rest)
  {
    picked, rest := s[..k], s[k..];
    assert multiset(all) == multiset(picked) + multiset(rest) by { assert s == picked + rest; }
    forall p, r | p in picked && r in rest ensures p.key <= r.key {
      var i :| 0 <= i < |picked| && picked[i] == p;
      var j :| 0 <= j < |rest| && rest[j] == r;
      assert s[i].key <= s[k + j].key;
    }
    assert Splits(all, picked, rest);
    assert |s| == |all| by { SameSize(s, all); }
  }

  lemma Position(a: seq<Hit>, b: seq<Hit>, x: Hit) returns (i: nat)
    requires multiset(b) == multiset(a) && x in a
    ensures i < |b| && b[i] == x
  {
    assert x in multiset(b);
    i :| 0 <= i < |b| && b[i] == x;
  }

  lemma SameSize(a: seq<Hit>, b: seq<Hit>)
    requires multiset(a) == multiset(b)
    ensures |a| == |b|
  {
    assert |a| == |multiset(a)| && |b| == |multiset(b)|;
  }

  lemma CutLoses(all: seq<Hit>, picked: seq<Hit>, rest: seq<Hit>, dist: real -> real, t: real, a: nat, b: nat)
    requires multiset(all) == multiset(picked + rest) && a < |picked| && b < |rest|
    requires dist(picked[a].key) > t && dist(rest[b].key) <= t
    ensures |TopThenFilter(picked, dist, t, |picked|)| < |FilterThenTop(all, dist, t, |picked|)|
  {
    var dp, dr, da := MapDist(dist, Keys(picked)), MapDist(dist, Keys(rest)), MapDist(dist, Keys(all));
    DistancesPermute(all, picked + rest, dist);
    DistancesAppend(picked, rest, dist);
    AtMostPermutes(da, dp + dr, t);
    AtMostAppend(dp, dr, t);
    AtMostShorter(dp, t, a);
    AtMostShorter(dr, t, b);
    Lengths(da, dp, dr, t);
  }

  lemma Lengths(da: seq<real>, dp: seq<real>, dr: seq<real>, t: real)
    requires multiset(AtMost(da, t)) == multiset(AtMost(dp, t) + AtMost(dr, t))
    ensures |SortReals(AtMost(da, t))| == |AtMost(dp, t)| + |AtMost(dr, t)|
    ensures |SortReals(AtMost(dp, t))| == |AtMost(dp, t)|
  {
    assert |SortReals(AtMost(da, t))| == |multiset(SortReals(AtMost(da, t)))|;
    assert |SortReals(AtMost(dp, t))| == |multiset(SortReals(AtMost(dp, t)))|;
    assert |AtMost(dp, t)| == |multiset(AtMost(dp, t))|;
  }

  // ---- the built-in metrics ----------------------------------------------------------------------------

  /** Cosine distance, 1 - similarity; the key of an inner product is its negation. */
  function CosineDistance(key: real): real { 1.0 - (-key) }

  lemma CosineIsMonotone(all: seq<Hit>)
    ensures MonotoneOn(CosineDistance, all)
  {}

  /** A square root on the squared distances L2 scores are. */
  ghost predicate IsSquareRoot(dist: real -> real) {
    forall x :: x >= 0.0 ==> dist(x) >= 0.0 && dist(x) * dist(x) == x
  }

  lemma EuclideanIsMonotone(dist: real -> real, all: seq<Hit>)
    requires IsSquareRoot(dist) && forall h :: h in all ==> h.key >= 0.0
    ensures MonotoneOn(dist, all)
  {
    forall x, y | x in all && y in all && x.key <= y.key ensures dist(x.key) <= dist(y.key) {
      var p, q := dist(x.key), dist(y.key);
      assert p * p == x.key && q * q == y.key;
      if p > q {
        SquareGrows(q, p);
      }
    }
  }

  lemma SquareGrows(a: real, b: real)
    requires 0.0 <= a < b
    ensures a * a < b * b
  {
    var d := b - a;
    assert a * d >= 0.0 && d * d > 0.0;
    assert b * b == (a + d) * (a + d) == a * a + a * d + (d * a + d * d);
  }
}
