/** The fixed-window rate limiter of the query endpoint. */
module RateLimiter {

  type Key = string

  datatype Bucket = Bucket(start: int, count: int)

  datatype Request = Request(key: Key, at: int)

  /** Above this many buckets, expired ones are swept before a request is judged. */
  const SWEEP_ABOVE := 10000

  datatype Limits = Limits(limit: int, window: int)

  predicate Expired(b: Bucket, now: int, l: Limits) {
    now - b.start >= l.window
  }

  function Sweep(buckets: map<Key, Bucket>, now: int, l: Limits): map<Key, Bucket> {
    map k | k in buckets && !Expired(buckets[k], now, l) :: buckets[k]
  }

  /** The decision without any sweep. */
  function Judge(buckets: map<Key, Bucket>, r: Request, l: Limits): (map<Key, Bucket>, bool) {
    if r.key !in buckets || Expired(buckets[r.key], r.at, l) then (buckets[r.key := Bucket(r.at, 1)], true)
    else if buckets[r.key].count >= l.limit then (buckets, false)
    else (buckets[r.key := buckets[r.key].(count := buckets[r.key].count + 1)], true)
  }

  function Allow(buckets: map<Key, Bucket>, r: Request, l: Limits): (map<Key, Bucket>, bool) {
    Judge(if |buckets| > SWEEP_ABOVE then Sweep(buckets, r.at, l) else buckets, r, l)
  }

  class Limiter {
    const limits: Limits
    var buckets: map<Key, Bucket>

    constructor (limits: Limits)
      ensures this.limits == limits && buckets == map[]
    {
      this.limits, buckets := limits, map[];
    }

    /** The sweep deletes from the map while ranging over it, in any order. */
    method Admit(key: Key, now: int) returns (ok: bool)
      modifies this
      ensures (buckets, ok) == Allow(old(buckets), Request(key, now), limits)
    {
      if |buckets| > SWEEP_ABOVE {
        var todo := buckets.Keys;
        while todo != {}
          invariant todo <= buckets.Keys <= old(buckets).Keys
          invariant forall k :: k in old(buckets) ==>
                      (k in buckets <==> k in todo || !Expired(old(buckets)[k], now, limits))
          invariant forall k :: k in buckets ==> buckets[k] == old(buckets)[k]
          decreases |todo|
        {
          var k :| k in todo;
          todo := todo - {k};
          if Expired(buckets[k], now, limits) {
            buckets := buckets - {k};
          }
        }
        assert buckets == Sweep(old(buckets), now, limits);
      }
      if key !in buckets || Expired(buckets[key], now, limits) {
        buckets := buckets[key := Bucket(now, 1)];
        return true;
      }
      if buckets[key].count >= limits.limit {
        return false;
      }
      buckets := buckets[key := buckets[key].(count := buckets[key].count + 1)];
      return true;
    }
  }

  // ---- the sweep never changes a decision ---------------------------------------------------

  ghost predicate NonDecreasing(rs: seq<Request>) {
    forall i, j :: 0 <= i < j < |rs| ==> rs[i].at <= rs[j].at
  }

  function Run(rs: seq<Request>, l: Limits): (map<Key, Bucket>, seq<bool>) {
    if rs == [] then (map[], [])
    else
      var (b, oks) := Run(rs[..|rs| - 1], l);
      var (b', ok) := Allow(b, rs[|rs| - 1], l);
      (b', oks + [ok])
  }

  function RunUnswept(rs: seq<Request>, l: Limits): (map<Key, Bucket>, seq<bool>) {
    if rs == [] then (map[], [])
    else
      var (b, oks) := RunUnswept(rs[..|rs| - 1], l);
      var (b', ok) := Judge(b, rs[|rs| - 1], l);
      (b', oks + [ok])
  }

  /** From `now` on, the two maps cannot be told apart. */
  ghost predicate Alike(a: map<Key, Bucket>, b: map<Key, Bucket>, now: int, l: Limits) {
    && (forall k :: k in a && !Expired(a[k], now, l) ==> k in b && b[k] == a[k])
    && (forall k :: k in b && !Expired(b[k], now, l) ==> k in a && a[k] == b[k])
  }

  lemma JudgeAlike(a: map<Key, Bucket>, b: map<Key, Bucket>, r: Request, l: Limits)
    requires Alike(a, b, r.at, l)
    ensures Judge(a, r, l).1 == Judge(b, r, l).1
    ensures Alike(Judge(a, r, l).0, Judge(b, r, l).0, r.at, l)
  {}

  lemma {:induction false} SweepChangesNothing(rs: seq<Request>, l: Limits, now: int)
    requires NonDecreasing(rs) && (rs != [] ==> rs[|rs| - 1].at <= now)
    ensures Run(rs, l).1 == RunUnswept(rs, l).1
    ensures Alike(Run(rs, l).0, RunUnswept(rs, l).0, now, l)
  {
    if rs != [] {
      var r := rs[|rs| - 1];
      SweepChangesNothing(rs[..|rs| - 1], l, r.at);
      var a, b := Run(rs[..|rs| - 1], l).0, RunUnswept(rs[..|rs| - 1], l).0;
      assert Alike(Sweep(a, r.at, l), b, r.at, l);
      JudgeAlike(if |a| > SWEEP_ABOVE then Sweep(a, r.at, l) else a, b, r, l);
    }
  }

  // ---- how many requests one window lets through ---------------------------------------------------

  /** An admitted request with the start of the bucket that admitted it. */
  datatype Admission = Admission(at: int, start: int)

  function Logged(log: seq<Admission>, b: map<Key, Bucket>, r: Request, key: Key, l: Limits): seq<Admission> {
    if r.key == key && Judge(b, r, l).1 then log + [Admission(r.at, Judge(b, r, l).0[key].start)] else log
  }

  /** The requests of `key` that a limiter without the sweep lets through. */
  function Admissions(rs: seq<Request>, key: Key, l: Limits): seq<Admission> {
    if rs == [] then []
    else Logged(Admissions(rs[..|rs| - 1], key, l), RunUnswept(rs[..|rs| - 1], l).0, rs[|rs| - 1], key, l)
  }

  ghost predicate Ordered(log: seq<Admission>) {
    forall i, j :: 0 <= i < j < |log| ==> log[i].start <= log[j].start && log[i].at <= log[j].at
  }

  /** A bucket starts with its first request and admits requests for one window. */
  ghost predicate Fits(log: seq<Admission>, l: Limits) {
    && (forall i :: 0 <= i < |log| ==> log[i].start <= log[i].at < log[i].start + l.window)
    && (forall i :: 0 <= i < |log| && log[i].at != log[i].start ==> i > 0 && log[i - 1].start == log[i].start)
  }

  /** `limit` admissions further on, another bucket has started, a window later at least. */
  ghost predicate Spaced(log: seq<Admission>, l: Limits)
    requires l.limit >= 1
  {
    forall i :: 0 <= i < |log| - l.limit ==> log[i].start + l.window <= log[i + l.limit].start
  }

  ghost predicate ByNow(log: seq<Admission>, now: int) {
    forall i :: 0 <= i < |log| ==> log[i].at <= now
  }

  ghost predicate Windowed(log: seq<Admission>, l: Limits)
    requires l.limit >= 1
  {
    Ordered(log) && Fits(log, l) && Spaced(log, l)
  }

  /** The bucket counts the trailing admissions that share its start. */
  ghost predicate BucketCounts(b: map<Key, Bucket>, key: Key, log: seq<Admission>, l: Limits) {
    if log == [] then key !in b
    else
      && key in b && b[key].start == log[|log| - 1].start
      && 1 <= b[key].count <= l.limit && b[key].count <= |log|
      && (forall i :: |log| - b[key].count <= i < |log| ==> log[i].start == b[key].start)
      && (b[key].count < |log| ==> log[|log| - 1 - b[key].count].start + l.window <= b[key].start)
  }

  lemma AdmitKeepsCount(b: map<Key, Bucket>, r: Request, log: seq<Admission>, l: Limits)
    requires l.limit >= 1 && l.window >= 1 && Ordered(log) && Fits(log, l) && BucketCounts(b, r.key, log, l)
    requires Judge(b, r, l).1 && ByNow(log, r.at)
    ensures var start := Judge(b, r, l).0[r.key].start;
            && BucketCounts(Judge(b, r, l).0, r.key, log + [Admission(r.at, start)], l)
            && start <= r.at < start + l.window
            && (forall i :: 0 <= i < |log| ==> log[i].start <= start)
            && (r.at != start ==> log != [] && log[|log| - 1].start == start)
            && (|log| >= l.limit ==> log[|log| - l.limit].start + l.window <= start)
  {
    var n := |log|;
    if n > 0 {
      assert log[n - 1].at <= r.at;
      assert forall i :: 0 <= i < n ==> log[i].start <= log[n - 1].start;
    }
    if n >= l.limit && !(r.key !in b || Expired(b[r.key], r.at, l)) {
      var c := b[r.key].count;
      assert n - l.limit <= n - 1 - c;
      assert log[n - l.limit].start <= log[n - 1 - c].start;
    }
  }

  lemma AdmitGrowsLog(log: seq<Admission>, a: Admission, l: Limits)
    requires l.limit >= 1 && Windowed(log, l)
    requires a.start <= a.at < a.start + l.window
    requires ByNow(log, a.at) && forall i :: 0 <= i < |log| ==> log[i].start <= a.start
    requires a.at != a.start ==> log != [] && log[|log| - 1].start == a.start
    requires |log| >= l.limit ==> log[|log| - l.limit].start + l.window <= a.start
    ensures Windowed(log + [a], l) && ByNow(log + [a], a.at)
  {
    GrowOrdered(log, a);
    GrowFits(log, a, l);
    GrowSpaced(log, a, l);
  }

  lemma GrowOrdered(log: seq<Admission>, a: Admission)
    requires Ordered(log) && ByNow(log, a.at) && forall i :: 0 <= i < |log| ==> log[i].start <= a.start
    ensures Ordered(log + [a]) && ByNow(log + [a], a.at)
  {}

  lemma GrowFits(log: seq<Admission>, a: Admission, l: Limits)
    requires Fits(log, l) && a.start <= a.at < a.start + l.window
    requires a.at != a.start ==> log != [] && log[|log| - 1].start == a.start
    ensures Fits(log + [a], l)
  {}

  lemma GrowSpaced(log: seq<Admission>, a: Admission, l: Limits)
    requires l.limit >= 1 && Spaced(log, l)
    requires |log| >= l.limit ==> log[|log| - l.limit].start + l.window <= a.start
    ensures Spaced(log + [a], l)
  {
    forall i | 0 <= i < |log + [a]| - l.limit
        ensures (log + [a])[i].start + l.window <= (log + [a])[i + l.limit].start {
      if i + l.limit == |log| { assert i == |log| - l.limit; }
    }
  }

  ghost predicate LogKept(b: map<Key, Bucket>, key: Key, log: seq<Admission>, l: Limits)
    requires l.limit >= 1
  {
    Windowed(log, l) && BucketCounts(b, key, log, l)
  }

  lemma JudgeKeepsLog(b: map<Key, Bucket>, r: Request, key: Key, log: seq<Admission>, l: Limits)
    requires l.limit >= 1 && l.window >= 1 && LogKept(b, key, log, l) && ByNow(log, r.at)
    ensures LogKept(Judge(b, r, l).0, key, Logged(log, b, r, key, l), l) && ByNow(Logged(log, b, r, key, l), r.at)
  {
    if r.key == key && Judge(b, r, l).1 {
      var a := Admission(r.at, Judge(b, r, l).0[key].start);
      assert Logged(log, b, r, key, l) == log + [a];
      AdmitKeepsCount(b, r, log, l);
      assert Windowed(log + [a], l) && ByNow(log + [a], a.at) by { AdmitGrowsLog(log, a, l); }
    } else {
      assert Logged(log, b, r, key, l) == log;
      JudgeLeaves(b, r, key, log, l);
    }
  }

  lemma JudgeLeaves(b: map<Key, Bucket>, r: Request, key: Key, log: seq<Admission>, l: Limits)
    requires BucketCounts(b, key, log, l) && !(r.key == key && Judge(b, r, l).1)
    ensures BucketCounts(Judge(b, r, l).0, key, log, l)
  {
    var after := Judge(b, r, l).0;
    assert (key in after <==> key in b) && (key in b ==> after[key] == b[key]);
  }

  lemma {:induction false} LogIsWindowed(rs: seq<Request>, key: Key, l: Limits)
    requires NonDecreasing(rs) && l.limit >= 1 && l.window >= 1
    ensures LogKept(RunUnswept(rs, l).0, key, Admissions(rs, key, l), l)
    ensures rs != [] ==> ByNow(Admissions(rs, key, l), rs[|rs| - 1].at)
  {
    if rs != [] {
      var g, r := rs[..|rs| - 1], rs[|rs| - 1];
      LogIsWindowed(g, key, l);
      var log := Admissions(g, key, l);
      assert ByNow(log, r.at) by {
        if g != [] { assert g[|g| - 1] == rs[|rs| - 2]; }
      }
      JudgeKeepsLog(RunUnswept(g, l).0, r, key, log, l);
    }
  }

  /** Of any 2 * limit admissions in a row, the last is at least a window after the first. */
  lemma LogIsSpread(rs: seq<Request>, key: Key, l: Limits, i: nat)
    requires NonDecreasing(rs) && l.limit >= 1 && l.window >= 1
    requires i + 2 * l.limit - 1 < |Admissions(rs, key, l)|
    ensures Admissions(rs, key, l)[i].at + l.window <= Admissions(rs, key, l)[i + 2 * l.limit - 1].at
  {
    LogIsWindowed(rs, key, l);
    var log, n := Admissions(rs, key, l), l.limit;
    if log[i].at == log[i].start {
      assert log[i].start + l.window <= log[i + n].start;
    } else {
      assert log[i - 1].start + l.window <= log[i - 1 + n].start;
      assert log[i - 1 + n].start + l.window <= log[i - 1 + n + n].start;
    }
  }

  // ---- the same in terms of what the limiter decides ----------------------------------------------

  /** The requests of `key` that the limiter, with its sweep, lets through, by position. */
  function Admitted(rs: seq<Request>, key: Key, l: Limits): seq<nat> {
    if rs == [] then []
    else
      var n := |rs| - 1;
      Admitted(rs[..n], key, l) + if rs[n].key == key && Allow(Run(rs[..n], l).0, rs[n], l).1 then [n] else []
  }

  lemma {:induction false} RunSize(rs: seq<Request>, l: Limits)
    ensures |Run(rs, l).1| == |rs|
  {
    if rs != [] { RunSize(rs[..|rs| - 1], l); }
  }

  /** These are exactly the positions at which `Run` decided true for `key`, in order. */
  lemma {:induction false} AdmittedAre(rs: seq<Request>, key: Key, l: Limits)
    ensures |Run(rs, l).1| == |rs|
    ensures forall i: nat :: i in Admitted(rs, key, l) <==> i < |rs| && rs[i].key == key && Run(rs, l).1[i]
    ensures forall i, j :: 0 <= i < j < |Admitted(rs, key, l)| ==> Admitted(rs, key, l)[i] < Admitted(rs, key, l)[j]
  {
    RunSize(rs, l);
    if rs != [] {
      var n := |rs| - 1;
      AdmittedAre(rs[..n], key, l);
      var before, after, a := Run(rs[..n], l).1, Run(rs, l).1, Admitted(rs[..n], key, l);
      forall k | 0 <= k < |a| ensures a[k] < n { assert a[k] in a; }
      assert after[..n] == before && after[n] == Allow(Run(rs[..n], l).0, rs[n], l).1;
      forall i: nat ensures i in Admitted(rs, key, l) <==> i < |rs| && rs[i].key == key && after[i] {
        if i < n { assert rs[..n][i] == rs[i] && after[i] == before[i]; }
      }
    }
  }

  /** The sweeping limiter lets the requests through that the log records. */
  lemma {:induction false} AdmittedAreLogged(rs: seq<Request>, key: Key, l: Limits)
    requires NonDecreasing(rs)
    ensures |Admitted(rs, key, l)| == |Admissions(rs, key, l)|
    ensures forall k :: 0 <= k < |Admitted(rs, key, l)| ==>
              Admitted(rs, key, l)[k] < |rs| && rs[Admitted(rs, key, l)[k]].at == Admissions(rs, key, l)[k].at
  {
    if rs != [] {
      var n := |rs| - 1;
      AdmittedAreLogged(rs[..n], key, l);
      SweepChangesNothing(rs[..n], l, rs[n].at);
      JudgedAlike(Run(rs[..n], l).0, RunUnswept(rs[..n], l).0, rs[n], l);
    }
  }

  lemma JudgedAlike(a: map<Key, Bucket>, b: map<Key, Bucket>, r: Request, l: Limits)
    requires Alike(a, b, r.at, l)
    ensures Allow(a, r, l).1 == Judge(b, r, l).1
  {
    assert Alike(Sweep(a, r.at, l), b, r.at, l);
    JudgeAlike(if |a| > SWEEP_ABOVE then Sweep(a, r.at, l) else a, b, r, l);
  }

  lemma {:induction false} RunDecides(rs: seq<Request>, l: Limits, i: nat)
    requires i < |rs|
    ensures |Run(rs, l).1| == |rs| && Run(rs, l).1[i] == Allow(Run(rs[..i], l).0, rs[i], l).1
  {
    var n := |rs| - 1;
    RunSize(rs, l);
    RunSize(rs[..n], l);
    if i < n {
      RunDecides(rs[..n], l, i);
      assert rs[..n][..i] == rs[..i] && rs[..n][i] == rs[i];
    }
  }

  /** A request is turned away only if the last `limit` requests of its key that were let through all
      came less than a window before it. */
  lemma RejectedOnlyWhenFull(rs: seq<Request>, l: Limits, i: nat)
    requires NonDecreasing(rs) && l.limit >= 1 && l.window >= 1 && i < |rs|
    ensures |Run(rs, l).1| == |rs|
    ensures !Run(rs, l).1[i] ==>
              var before := Admitted(rs[..i], rs[i].key, l);
              && |before| >= l.limit
              && forall k :: |before| - l.limit <= k < |before| ==>
                   before[k] < i && rs[i].at - l.window < rs[before[k]].at <= rs[i].at
  {
    RunDecides(rs, l, i);
    var g, key := rs[..i], rs[i].key;
    AdmittedAreLogged(g, key, l);
    LogIsWindowed(g, key, l);
    SweepChangesNothing(g, l, rs[i].at);
    JudgedAlike(Run(g, l).0, RunUnswept(g, l).0, rs[i], l);
    var log, before, b := Admissions(g, key, l), Admitted(g, key, l), RunUnswept(g, l).0;
    if !Run(rs, l).1[i] {
      forall k | |before| - l.limit <= k < |before|
        ensures before[k] < i && rs[i].at - l.window < rs[before[k]].at <= rs[i].at
      {
        assert log[k].start == b[key].start;
        assert rs[before[k]].at == g[before[k]].at == log[k].at;
      }
    }
  }

  /** Of any 2 * limit requests of one key let through in a row, the last comes at least a
      window after the first. */
  lemma SpreadOut(rs: seq<Request>, key: Key, l: Limits, i: nat)
    requires NonDecreasing(rs) && l.limit >= 1 && l.window >= 1
    requires i + 2 * l.limit - 1 < |Admitted(rs, key, l)|
    ensures var first, last := Admitted(rs, key, l)[i], Admitted(rs, key, l)[i + 2 * l.limit - 1];
            first < last < |rs| && rs[first].at + l.window <= rs[last].at
  {
    AdmittedAreLogged(rs, key, l);
    AdmittedAre(rs, key, l);
    LogIsSpread(rs, key, l, i);
  }

  /** The requests of `key` let through at a time in the half-open interval [from, from + window). */
  function LetThrough(rs: seq<Request>, key: Key, from: int, l: Limits): set<nat> {
    AdmittedAre(rs, key, l);
    set i: nat | i < |rs| && Run(rs, l).1[i] && rs[i].key == key && from <= rs[i].at < from + l.window
  }

  function Elements(s: seq<nat>): set<nat> {
    if s == [] then {} else Elements(s[..|s| - 1]) + {s[|s| - 1]}
  }

  lemma {:induction false} InElements(s: seq<nat>, x: nat)
    ensures x in Elements(s) <==> x in s
  {
    if s != [] {
      InElements(s[..|s| - 1], x);
      assert s == s[..|s| - 1] + [s[|s| - 1]];
    }
  }

  /** Ascending numbers form a set of as many. */
  lemma {:induction false} AscendingSize(s: seq<nat>)
    requires forall i, j :: 0 <= i < j < |s| ==> s[i] < s[j]
    ensures |Elements(s)| == |s|
  {
    if s != [] {
      AscendingSize(s[..|s| - 1]);
      InElements(s[..|s| - 1], s[|s| - 1]);
    }
  }

  /** In a non-decreasing sequence of times those of an interval are consecutive. */
  lemma {:induction false} InARow(times: seq<int>, from: int, to: int) returns (i: nat, k: nat)
    requires forall a, b :: 0 <= a < b < |times| ==> times[a] <= times[b]
    ensures i <= k <= |times| && forall x :: 0 <= x < |times| ==> (i <= x < k <==> from <= times[x] < to)
  {
    i := 0;
    while i < |times| && times[i] < from
      invariant 0 <= i <= |times| && forall x :: 0 <= x < i ==> times[x] < from
    {
      i := i + 1;
    }
    k := i;
    while k < |times| && times[k] < to
      invariant i <= k <= |times| && forall x :: i <= x < k ==> from <= times[x] < to
    {
      k := k + 1;
    }
  }

  /** They are a stretch of the requests let through. */
  lemma LetThroughAre(rs: seq<Request>, key: Key, from: int, l: Limits) returns (i: nat, k: nat)
    requires NonDecreasing(rs)
    ensures i <= k <= |Admitted(rs, key, l)| && |LetThrough(rs, key, from, l)| == k - i
    ensures forall x :: i <= x < k ==>
              var p := Admitted(rs, key, l)[x]; p < |rs| && from <= rs[p].at < from + l.window
  {
    AdmittedAre(rs, key, l);
    var a := Admitted(rs, key, l);
    forall x | 0 <= x < |a| ensures a[x] < |rs| { assert a[x] in a; }
    var times := Times(rs, a);
    i, k := InARow(times, from, from + l.window);
    AscendingSize(a[i..k]);
    LetThroughIs(rs, key, from, l, a, i, k);
  }

  lemma LetThroughIs(rs: seq<Request>, key: Key, from: int, l: Limits, a: seq<nat>, i: nat, k: nat)
    requires a == Admitted(rs, key, l) && i <= k <= |a| && forall x :: 0 <= x < |a| ==> a[x] < |rs|
    requires forall x :: 0 <= x < |a| ==> (i <= x < k <==> from <= Times(rs, a)[x] < from + l.window)
    ensures LetThrough(rs, key, from, l) == Elements(a[i..k])
  {
    AdmittedAre(rs, key, l);
    forall p: nat ensures p in LetThrough(rs, key, from, l) <==> p in Elements(a[i..k]) {
      InElements(a[i..k], p);
      StretchHas(rs, a, i, k, from, from + l.window, p);
    }
  }

  function Times(rs: seq<Request>, a: seq<nat>): (times: seq<int>)
    requires forall x :: 0 <= x < |a| ==> a[x] < |rs|
    ensures |times| == |a| && forall x :: 0 <= x < |a| ==> times[x] == rs[a[x]].at
  {
    seq(|a|, x requires 0 <= x < |a| => rs[a[x]].at)
  }

  lemma StretchHas(rs: seq<Request>, a: seq<nat>, i: nat, k: nat, from: int, to: int, p: nat)
    requires i <= k <= |a| && forall x :: 0 <= x < |a| ==> a[x] < |rs|
    requires forall x :: 0 <= x < |a| ==> (i <= x < k <==> from <= Times(rs, a)[x] < to)
    ensures p in a[i..k] <==> p in a && p < |rs| && from <= rs[p].at < to
  {
    if p in a[i..k] {
      var x :| 0 <= x < |a[i..k]| && a[i..k][x] == p;
      assert a[i + x] == p && from <= Times(rs, a)[i + x] < to;
    }
    if p in a && p < |rs| && from <= rs[p].at < to {
      var x :| 0 <= x < |a| && a[x] == p;
      assert from <= Times(rs, a)[x] < to;
      assert a[i..k][x - i] == p;
    }
  }

  /** With a non-decreasing clock, at most 2 * limit - 1 requests of one key are let through in
      any half-open interval as long as the window. */
  lemma WindowBound(rs: seq<Request>, key: Key, l: Limits, from: int)
    requires NonDecreasing(rs) && l.limit >= 1 && l.window >= 1
    ensures |LetThrough(rs, key, from, l)| <= 2 * l.limit - 1
  {
    var i, k := LetThroughAre(rs, key, from, l);
    if k - i >= 2 * l.limit {
      SpreadOut(rs, key, l, i);
      assert false;
    }
  }

  // ---- the bound is met -------------------------------------------------------------------------------

  /** One request opens a bucket, limit - 1 end it, limit more open the next. */
  function TightTime(i: nat, l: Limits): int {
    if i == 0 then 0 else if i < l.limit then l.window - 1 else l.window
  }

  /** The one bucket after `n` of these requests. */
  function TightBucket(n: nat, l: Limits): Bucket {
    if n <= l.limit then Bucket(0, n) else Bucket(l.window, n - l.limit)
  }

  /** All of them are let through. */
  lemma {:induction false} TightRuns(rs: seq<Request>, key: Key, l: Limits, n: nat)
    requires l.limit >= 1 && l.window >= 2 && 1 <= n <= |rs| == 2 * l.limit
    requires forall i :: 0 <= i < |rs| ==> rs[i] == Request(key, TightTime(i, l))
    ensures Run(rs[..n], l).0 == map[key := TightBucket(n, l)]
    ensures |Run(rs[..n], l).1| == n && forall i :: 0 <= i < n ==> Run(rs[..n], l).1[i]
  {
    assert rs[..n][..n - 1] == rs[..n - 1];
    if n == 1 {
      assert rs[..0] == [] && Run(rs[..0], l) == (map[], []);
    } else {
      TightRuns(rs, key, l, n - 1);
      TightStep(key, l, n);
    }
  }

  lemma TightStep(key: Key, l: Limits, n: nat)
    requires l.limit >= 1 && l.window >= 2 && 2 <= n <= 2 * l.limit
    ensures Allow(map[key := TightBucket(n - 1, l)], Request(key, TightTime(n - 1, l)), l)
        == (map[key := TightBucket(n, l)], true)
  {
    var b := map[key := TightBucket(n - 1, l)];
    AtMostOne(b, key);
    assert b[key := TightBucket(n, l)] == map[key := TightBucket(n, l)];
  }

  lemma AtMostOne(m: map<Key, Bucket>, key: Key)
    requires m.Keys <= {key}
    ensures |m| <= 1
  {
    assert |m| == |m.Keys|;
    if key in m { assert m.Keys == {key}; } else { assert m.Keys == {}; }
  }

  /** And all but the first come within one window: the bound is met for every limit and every
      window longer than one tick. */
  lemma WindowBoundIsTight(key: Key, l: Limits) returns (rs: seq<Request>)
    requires l.limit >= 1 && l.window >= 2
    ensures NonDecreasing(rs)
    ensures |LetThrough(rs, key, l.window - 1, l)| == 2 * l.limit - 1
  {
    rs := seq(2 * l.limit, i requires 0 <= i < 2 * l.limit => Request(key, TightTime(i, l)));
    TightRuns(rs, key, l, |rs|);
    assert rs[..|rs|] == rs;
    AllButFirst(rs, key, l);
  }

  lemma AllButFirst(rs: seq<Request>, key: Key, l: Limits)
    requires |rs| == 2 * l.limit && l.limit >= 1 && l.window >= 2 && |Run(rs, l).1| == |rs|
    requires forall i :: 0 <= i < |rs| ==> rs[i].key == key && Run(rs, l).1[i]
    requires forall i :: 0 <= i < |rs| ==> rs[i].at == if i == 0 then 0 else if i < l.limit then l.window - 1
        else l.window
    ensures |LetThrough(rs, key, l.window - 1, l)| == 2 * l.limit - 1
  {
    var row := seq(|rs| - 1, i requires 0 <= i < |rs| - 1 => (i + 1) as nat);
    AscendingSize(row);
    forall p: nat ensures p in LetThrough(rs, key, l.window - 1, l) <==> p in Elements(row) {
      InElements(row, p);
      if 1 <= p < |rs| { assert row[p - 1] == p; }
    }
    assert LetThrough(rs, key, l.window - 1, l) == Elements(row);
  }
}
