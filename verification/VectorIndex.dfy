/** The vector index: FAISS speaks integer ids, so the adapter keeps a two-way map between
    public ids and integers; the plain index is a pair of lists scanned in full. */
module VectorIndex {
  import opened Entries
  import opened Nearest

  datatype Reply = Added | Deleted(found: bool) | Restored(count: nat) | Raised | Flushed

  datatype Op =
    | Upsert(vector: Vector, id: Id)           // `id` is the generated uuid
    | Delete(id: Id)
    | Rebuild(entries: seq<(Id, Vector)>)
    | Flush

  /** What the FAISS adapter holds: its vectors, and ids its map knows without a vector. */
  datatype FaissState = FaissState(contents: map<Id, Vector>, stale: set<Id>)

  function PairsMap(entries: seq<(Id, Vector)>): map<Id, Vector> {
    if entries == [] then map[]
    else PairsMap(entries[..|entries| - 1])[entries[|entries| - 1].0 := entries[|entries| - 1].1]
  }

  /** A rebuild accepts entry `i`: right dimension and an id not seen before. */
  predicate Acceptable(entries: seq<(Id, Vector)>, i: nat, dim: nat)
    requires i < |entries|
  {
    |entries[i].1| == dim && forall j :: 0 <= j < i ==> entries[j].0 != entries[i].0
  }

  predicate AllAcceptable(entries: seq<(Id, Vector)>, dim: nat) {
    forall i :: 0 <= i < |entries| ==> Acceptable(entries, i, dim)
  }

  /** The entries before the first unacceptable one. */
  function AcceptedPrefix(entries: seq<(Id, Vector)>, dim: nat): seq<(Id, Vector)> {
    if entries == [] then []
    else
      var n := |entries| - 1;
      var before := AcceptedPrefix(entries[..n], dim);
      if |before| == n && Acceptable(entries, n, dim) then entries else before
  }

  function FaissStep(s: FaissState, dim: nat, op: Op): (FaissState, Reply) {
    match op
    case Upsert(v, id) => if |v| != dim then (s, Raised) else (s.(contents := s.contents[id := v]), Added)
    case Delete(id) => (FaissState(s.contents - {id}, s.stale - {id}), Deleted(id in s.contents || id in s.stale))
    case Rebuild(entries) =>
      if AllAcceptable(entries, dim) then (FaissState(PairsMap(entries), {}), Restored(|entries|))
      else (FaissState(map[], PairsMap(AcceptedPrefix(entries, dim)).Keys), Raised)
    case Flush => (FaissState(map[], {}), Flushed)
  }

  function PlainStep(m: map<Id, Vector>, dim: nat, op: Op): (map<Id, Vector>, Reply) {
    match op
    case Upsert(v, id) => if |v| != dim then (m, Raised) else (m[id := v], Added)
    case Delete(id) => (m - {id}, Deleted(id in m))
    case Rebuild(entries) =>
      if AllAcceptable(entries, dim) then (PairsMap(entries), Restored(|entries|)) else (m, Raised)
    case Flush => (map[], Flushed)
  }

  function FaissRun(s: FaissState, dim: nat, ops: seq<Op>): (FaissState, seq<Reply>) {
    if ops == [] then (s, [])
    else
      var (t, replies) := FaissRun(s, dim, ops[..|ops| - 1]);
      var (u, reply) := FaissStep(t, dim, ops[|ops| - 1]);
      (u, replies + [reply])
  }

  function PlainRun(m: map<Id, Vector>, dim: nat, ops: seq<Op>): (map<Id, Vector>, seq<Reply>) {
    if ops == [] then (m, [])
    else
      var (t, replies) := PlainRun(m, dim, ops[..|ops| - 1]);
      var (u, reply) := PlainStep(t, dim, ops[|ops| - 1]);
      (u, replies + [reply])
  }

  /** What the requests do to the vectors: an upsert of the right dimension stores its vector under the new
      id; a delete takes exactly its id away and says whether it was there; a rebuild of entries that all
      have the right dimension and different ids replaces everything by them; a flush leaves nothing.
      Any other request raises and changes nothing. */
  lemma PlainStepMeans(m: map<Id, Vector>, dim: nat, op: Op)
    ensures var (r, reply) := PlainStep(m, dim, op);
            match op
            case Upsert(v, id) =>
              if |v| == dim then reply == Added && r == m[id := v] else reply == Raised && r == m
            case Delete(id) =>
              && reply == Deleted(id in m)
              && (forall x :: x in r <==> x in m && x != id) && forall x :: x in r ==> r[x] == m[x]
            case Rebuild(entries) =>
              if (forall i :: 0 <= i < |entries| ==> |entries[i].1| == dim)
                 && (forall i, j :: 0 <= i < j < |entries| ==> entries[i].0 != entries[j].0)
              then
                && reply == Restored(|entries|)
                && (forall i :: 0 <= i < |entries| ==> entries[i].0 in r && r[entries[i].0] == entries[i].1)
                && forall x :: x in r ==> exists i :: 0 <= i < |entries| && entries[i].0 == x
              else reply == Raised && r == m
            case Flush => reply == Flushed && r == map[]
  {
    if op.Rebuild? {
      var entries := op.entries;
      if AllAcceptable(entries, dim) {
        ValuesOfAccepted(entries, dim);
        PairsMapKeys(entries);
        forall i | 0 <= i < |entries| ensures |entries[i].1| == dim { assert Acceptable(entries, i, dim); }
      } else {
        var i :| 0 <= i < |entries| && !Acceptable(entries, i, dim);
        if |entries[i].1| == dim {
          var j :| 0 <= j < i && entries[j].0 == entries[i].0;
        }
      }
    }
  }

  /** What is different about FAISS: a rebuild that raises leaves no vector, but keeps in its maps the ids of
      the entries before the first bad one; deleting such an id is answered as if it had been there. */
  lemma FaissStepMeans(s: FaissState, dim: nat, op: Op)
    ensures var (r, reply) := FaissStep(s, dim, op);
            match op
            case Upsert(v, id) => r == (if |v| == dim then s.(contents := s.contents[id := v]) else s)
                                  && reply == if |v| == dim then Added else Raised
            case Delete(id) =>
              && reply == Deleted(id in s.contents || id in s.stale)
              && r.contents == PlainStep(s.contents, dim, op).0 && forall x :: x in r.stale <==> x in s.stale && x != id
            case Rebuild(entries) =>
              && (reply.Raised? <==> PlainStep(s.contents, dim, op).1.Raised?)
              && (!reply.Raised? ==> r == FaissState(PlainStep(s.contents, dim, op).0, {}))
              && (reply.Raised? ==>
                    && r.contents == map[]
                    && forall x :: x in r.stale <==>
                         exists i :: 0 <= i < |entries| && entries[i].0 == x
                                     && forall j :: 0 <= j <= i ==> Acceptable(entries, j, dim))
            case Flush => r == FaissState(map[], {}) && reply == Flushed
  {
    if op.Rebuild? && !AllAcceptable(op.entries, dim) { StaleAreRead(op.entries, dim); }
  }

  lemma StaleAreRead(entries: seq<(Id, Vector)>, dim: nat)
    ensures forall x :: x in PairsMap(AcceptedPrefix(entries, dim)) <==>
              exists i :: 0 <= i < |entries| && entries[i].0 == x
                          && forall j :: 0 <= j <= i ==> Acceptable(entries, j, dim)
  {
    var p := AcceptedPrefix(entries, dim);
    AcceptedPrefixIsMaximal(entries, dim);
    PairsMapKeys(p);
    forall j | 0 <= j < |p| ensures Acceptable(entries, j, dim) { assert Acceptable(p, j, dim); }
    forall x ensures x in PairsMap(p) <==>
              exists i :: 0 <= i < |entries| && entries[i].0 == x
                          && forall j :: 0 <= j <= i ==> Acceptable(entries, j, dim)
    {
      if x in PairsMap(p) {
        var i :| 0 <= i < |p| && p[i].0 == x;
        assert entries[i].0 == x;
      }
      if i :| 0 <= i < |entries| && entries[i].0 == x && forall j :: 0 <= j <= i ==> Acceptable(entries, j, dim) {
        assert i < |p|;
        assert p[i] == entries[i];
      }
    }
  }

  lemma SameStep(m: map<Id, Vector>, dim: nat, op: Op)
    requires op.Rebuild? ==> AllAcceptable(op.entries, dim)
    ensures FaissStep(FaissState(m, {}), dim, op) == (FaissState(PlainStep(m, dim, op).0, {}), PlainStep(m, dim, op).1)
  {
    if op.Delete? { assert {} - {op.id} == {}; }
  }

  /** Until a rebuild raises, both indexes hold the same vectors under the same ids and
      give the same answers. */
  lemma {:induction false} SameUntilRebuildRaises(m: map<Id, Vector>, dim: nat, ops: seq<Op>)
    requires forall i :: 0 <= i < |ops| && ops[i].Rebuild? ==> AllAcceptable(ops[i].entries, dim)
    ensures FaissRun(FaissState(m, {}), dim, ops)
         == (FaissState(PlainRun(m, dim, ops).0, {}), PlainRun(m, dim, ops).1)
  {
    if ops != [] {
      SameUntilRebuildRaises(m, dim, ops[..|ops| - 1]);
      var t := PlainRun(m, dim, ops[..|ops| - 1]).0;
      assert ops[|ops| - 1].Rebuild? ==> AllAcceptable(ops[|ops| - 1].entries, dim);
      SameStep(t, dim, ops[|ops| - 1]);
    }
  }

  /** A rebuild that raises empties FAISS and leaves the plain index alone: they still
      agree exactly when there was nothing to lose and no entry had been read. */
  lemma RaisedRebuildDiverges(m: map<Id, Vector>, dim: nat, entries: seq<(Id, Vector)>)
    requires !AllAcceptable(entries, dim)
    ensures FaissStep(FaissState(m, {}), dim, Rebuild(entries)).0.contents == map[]
    ensures PlainStep(m, dim, Rebuild(entries)).0 == m
    ensures (FaissStep(FaissState(m, {}), dim, Rebuild(entries)).0
             == FaissState(PlainStep(m, dim, Rebuild(entries)).0, {}))
            <==> m == map[] && |entries[0].1| != dim
  {
    var p := AcceptedPrefix(entries, dim);
    AcceptedPrefixIsMaximal(entries, dim);
    if |entries[0].1| == dim {
      assert Acceptable(entries, 0, dim);
      PairsMapKeys(p);
      assert p[0].0 in PairsMap(p).Keys;
    } else {
      AcceptedPrefixAt(entries, 0, dim);
    }
  }

  lemma {:induction false} AcceptedPrefixAt(entries: seq<(Id, Vector)>, i: nat, dim: nat)
    requires i < |entries| && !Acceptable(entries, i, dim)
    requires forall k :: 0 <= k < i ==> Acceptable(entries, k, dim)
    ensures AcceptedPrefix(entries, dim) == entries[..i] && !AllAcceptable(entries, dim)
  {
    var n := |entries| - 1;
    if i == n {
      forall k | 0 <= k < n ensures Acceptable(entries[..n], k, dim) { assert Acceptable(entries, k, dim); }
      AcceptedPrefixIsMaximal(entries[..n], dim);
    } else {
      forall k | 0 <= k < i ensures Acceptable(entries[..n], k, dim) { assert Acceptable(entries, k, dim); }
      assert !Acceptable(entries[..n], i, dim);
      AcceptedPrefixAt(entries[..n], i, dim);
      assert entries[..n][..i] == entries[..i];
    }
  }

  /** A flush, or a rebuild of acceptable entries, puts FAISS in a state that does not
      depend on what it held before. */
  lemma ResetRecovers(s: FaissState, m: map<Id, Vector>, dim: nat, op: Op)
    requires op.Flush? || (op.Rebuild? && AllAcceptable(op.entries, dim))
    ensures FaissStep(s, dim, op) == (FaissState(PlainStep(m, dim, op).0, {}), PlainStep(m, dim, op).1)
  {}

  lemma {:induction false} RunReplies(s: FaissState, m: map<Id, Vector>, dim: nat, ops: seq<Op>)
    ensures |FaissRun(s, dim, ops).1| == |PlainRun(m, dim, ops).1| == |ops|
  {
    if ops != [] { RunReplies(s, m, dim, ops[..|ops| - 1]); }
  }

  /** Whatever either index held and did before a reset, from there on until a rebuild raises
      both hold the same vectors and give the same answers. */
  lemma {:induction false} SameSinceReset(s: FaissState, m: map<Id, Vector>, dim: nat, ops: seq<Op>, r: nat)
    requires r < |ops| && (ops[r].Flush? || (ops[r].Rebuild? && AllAcceptable(ops[r].entries, dim)))
    requires forall i :: r < i < |ops| && ops[i].Rebuild? ==> AllAcceptable(ops[i].entries, dim)
    ensures |FaissRun(s, dim, ops).1| == |PlainRun(m, dim, ops).1| == |ops|
    ensures FaissRun(s, dim, ops).0 == FaissState(PlainRun(m, dim, ops).0, {})
    ensures FaissRun(s, dim, ops).1[r..] == PlainRun(m, dim, ops).1[r..]
  {
    var k := |ops| - 1;
    RunReplies(s, m, dim, ops);
    RunReplies(s, m, dim, ops[..k]);
    if r == k {
      ResetRecovers(FaissRun(s, dim, ops[..k]).0, PlainRun(m, dim, ops[..k]).0, dim, ops[k]);
    } else {
      SameSinceReset(s, m, dim, ops[..k], r);
      SameStep(PlainRun(m, dim, ops[..k]).0, dim, ops[k]);
    }
  }

  lemma {:induction false} AcceptedPrefixIsMaximal(entries: seq<(Id, Vector)>, dim: nat)
    ensures var p := AcceptedPrefix(entries, dim);
            && p <= entries && AllAcceptable(p, dim)
            && (|p| < |entries| ==> !Acceptable(entries, |p|, dim))
            && (|p| == |entries| <==> AllAcceptable(entries, dim))
  {
    if entries != [] {
      var n := |entries| - 1;
      AcceptedPrefixIsMaximal(entries[..n], dim);
      var b := AcceptedPrefix(entries[..n], dim);
      if |b| == n {
        assert b == entries[..n];
        forall i | 0 <= i < n ensures Acceptable(entries, i, dim) { assert Acceptable(b, i, dim); }
      } else {
        assert !Acceptable(entries[..n], |b|, dim);
        assert !Acceptable(entries, |b|, dim);
      }
    }
  }

  lemma {:induction false} PairsMapKeys(entries: seq<(Id, Vector)>)
    ensures forall i :: 0 <= i < |entries| ==> entries[i].0 in PairsMap(entries)
    ensures forall id :: id in PairsMap(entries) ==> exists i :: 0 <= i < |entries| && entries[i].0 == id
  {
    if entries != [] {
      var n := |entries| - 1;
      var before := entries[..n];
      PairsMapKeys(before);
      assert forall i :: 0 <= i < n ==> before[i] == entries[i];
      forall id | id in PairsMap(entries) && id != entries[n].0 ensures exists i :: 0 <= i < n && entries[i].0 == id {
        var i :| 0 <= i < |before| && before[i].0 == id;
      }
    }
  }

  lemma {:induction false} PairsMapValues(entries: seq<(Id, Vector)>, i: nat)
    requires i < |entries| && forall j :: i < j < |entries| ==> entries[j].0 != entries[i].0
    ensures entries[i].0 in PairsMap(entries) && PairsMap(entries)[entries[i].0] == entries[i].1
  {
    if i < |entries| - 1 { PairsMapValues(entries[..|entries| - 1], i); }
  }

  lemma ValuesOfAccepted(entries: seq<(Id, Vector)>, dim: nat)
    requires AllAcceptable(entries, dim)
    ensures forall i :: 0 <= i < |entries| ==>
        entries[i].0 in PairsMap(entries) && PairsMap(entries)[entries[i].0] == entries[i].1
    ensures forall i, j :: 0 <= i < j < |entries| ==> entries[i].0 != entries[j].0
  {
    forall i, j | 0 <= i < j < |entries| ensures entries[i].0 != entries[j].0 { assert Acceptable(entries, j, dim); }
    forall i | 0 <= i < |entries| ensures entries[i].0 in PairsMap(entries)
        && PairsMap(entries)[entries[i].0] == entries[i].1 {
      PairsMapValues(entries, i);
    }
  }

  // ---- the FAISS adapter -----------------------------------------------------------------------

  datatype Match = Match(id: Id, distance: real)

  /** A match names a stored id and the distance of its own vector, within the threshold. */
  ghost predicate IsMatch(contents: map<Id, Vector>, m: Match, query: Vector, threshold: real,
                          key: (Vector, Vector) -> real, dist: real -> real) {
    m.id in contents && m.distance == dist(key(query, contents[m.id])) <= threshold
  }

  function Distances(ms: seq<Match>): (r: seq<real>)
    ensures |r| == |ms| && forall i :: 0 <= i < |ms| ==> r[i] == ms[i].distance
  {
    seq(|ms|, i requires 0 <= i < |ms| => ms[i].distance)
  }

  /** `matches.sort(key=distance)`: stable. */
  function InsertMatch(m: Match, s: seq<Match>): seq<Match> {
    if s == [] || m.distance <= s[0].distance then [m] + s else [s[0]] + InsertMatch(m, s[1..])
  }

  function SortMatches(s: seq<Match>): seq<Match> {
    if s == [] then [] else InsertMatch(s[0], SortMatches(s[1..]))
  }

  lemma {:induction false} InsertMatchKeeps(m: Match, s: seq<Match>)
    ensures forall x :: x in InsertMatch(m, s) <==> x == m || x in s
  {
    if s != [] {
      InsertMatchKeeps(m, s[1..]);
      assert s == [s[0]] + s[1..];
    }
  }

  lemma {:induction false} InsertMatchDistances(m: Match, s: seq<Match>)
    ensures Distances(InsertMatch(m, s)) == InsertReal(m.distance, Distances(s))
  {
    if s != [] {
      InsertMatchDistances(m, s[1..]);
      assert s == [s[0]] + s[1..];
      DistancesCons(s[0], s[1..]);
      DistancesCons(m, s);
      DistancesCons(s[0], InsertMatch(m, s[1..]));
    }
  }

  lemma DistancesCons(m: Match, s: seq<Match>)
    ensures Distances([m] + s) == [m.distance] + Distances(s)
    ensures Distances([m] + s)[1..] == Distances(s)
  {
    var t := [m] + s;
    forall i | 0 <= i < |t| ensures Distances(t)[i] == ([m.distance] + Distances(s))[i] {
      if i > 0 { assert t[i] == s[i - 1]; }
    }
  }

  lemma {:induction false} SortMatchesKeeps(s: seq<Match>)
    ensures forall x :: x in SortMatches(s) <==> x in s
  {
    if s != [] {
      SortMatchesKeeps(s[1..]);
      InsertMatchKeeps(s[0], SortMatches(s[1..]));
      assert s == [s[0]] + s[1..];
    }
  }

  lemma {:induction false} SortMatchesDistances(s: seq<Match>)
    ensures Distances(SortMatches(s)) == SortReals(Distances(s))
  {
    if s != [] {
      SortMatchesDistances(s[1..]);
      InsertMatchDistances(s[0], SortMatches(s[1..]));
      DistancesSplit(s);
    }
  }

  /** `matches.sort(...)` and then `matches[:top_k]`. */
  function BestMatches(matches: seq<Match>, topK: nat): (r: seq<Match>)
    ensures |r| <= topK
  {
    var sorted := SortMatches(matches);
    if |sorted| <= topK then sorted else sorted[..topK]
  }

  lemma BestMatchesKeep(matches: seq<Match>, topK: nat)
    ensures Distances(BestMatches(matches, topK)) == Take(SortReals(Distances(matches)), topK)
    ensures forall m :: m in BestMatches(matches, topK) ==> m in matches
  {
    SortMatchesDistances(matches);
    SortMatchesKeeps(matches);
  }

  /** A vector added under a new id and the next integer. */
  lemma AddedIsRepresented(index: seq<(int, Vector)>, uuidToInt: map<Id, int>, intToUuid: map<int, Id>,
                           contents: map<Id, Vector>, next: int, vector: Vector, id: Id)
    requires Inverse(uuidToInt, intToUuid, next) && Represents(index, uuidToInt, intToUuid, contents)
    requires id !in uuidToInt
    ensures Inverse(uuidToInt[id := next], intToUuid[next := id], next + 1)
    ensures Represents(index + [(next, vector)], uuidToInt[id := next], intToUuid[next := id], contents[id := vector])
  {}

  /** Every indexed vector with its key for the query. */
  function Hits(index: seq<(int, Vector)>, query: Vector, key: (Vector, Vector) -> real): (r: seq<Hit>)
    ensures |r| == |index| && forall i :: 0 <= i < |index| ==> r[i] == Hit(index[i].0, key(query, index[i].1))
  {
    seq(|index|, i requires 0 <= i < |index| => Hit(index[i].0, key(query, index[i].1)))
  }

  function RemoveId(index: seq<(int, Vector)>, id: int): seq<(int, Vector)> {
    if index == [] then []
    else (if index[0].0 == id then [] else [index[0]]) + RemoveId(index[1..], id)
  }

  ghost predicate DistinctInts(index: seq<(int, Vector)>) {
    forall i, j :: 0 <= i < j < |index| ==> index[i].0 != index[j].0
  }

  lemma {:induction false} RemoveIdKeeps(index: seq<(int, Vector)>, id: int)
    requires DistinctInts(index)
    ensures DistinctInts(RemoveId(index, id))
    ensures forall p :: p in RemoveId(index, id) <==> p in index && p.0 != id
  {
    if index != [] {
      RemoveIdKeeps(index[1..], id);
      assert index == [index[0]] + index[1..];
      var t := RemoveId(index[1..], id);
      forall j | 0 <= j < |t| ensures t[j].0 != index[0].0 {
        assert t[j] in index[1..];
        var k :| 0 <= k < |index[1..]| && index[1..][k] == t[j];
        assert index[k + 1] == t[j];
      }
    }
  }

  ghost predicate Inverse(uuidToInt: map<Id, int>, intToUuid: map<int, Id>, next: int) {
    && (forall u :: u in uuidToInt ==> uuidToInt[u] in intToUuid && intToUuid[uuidToInt[u]] == u)
    && (forall i :: i in intToUuid ==> intToUuid[i] in uuidToInt && uuidToInt[intToUuid[i]] == i && i < next)
  }

  /** `index` holds exactly the vectors of `contents`, each under its own integer. */
  ghost predicate Represents(index: seq<(int, Vector)>, uuidToInt: map<Id, int>, intToUuid: map<int, Id>,
      contents: map<Id, Vector>) {
    && DistinctInts(index)
    && (forall p :: p in index ==> p.0 in intToUuid && intToUuid[p.0] in contents && contents[intToUuid[p.0]] == p.1)
    && (forall u :: u in contents ==> u in uuidToInt && (uuidToInt[u], contents[u]) in index)
  }

  class FaissIndex {
    const dim: nat
    var index: seq<(int, Vector)>
    var uuidToInt: map<Id, int>
    var intToUuid: map<int, Id>
    var nextIntId: int
    ghost var contents: map<Id, Vector>

    ghost predicate Valid()
      reads this
    {
      Inverse(uuidToInt, intToUuid, nextIntId) && Represents(index, uuidToInt, intToUuid, contents)
    }

    /** The ids the maps know without a vector are left by a rebuild that raised. */
    ghost function State(): FaissState
      reads this
    {
      FaissState(contents, uuidToInt.Keys - contents.Keys)
    }

    constructor (dim: nat)
      ensures Valid() && this.dim == dim && State() == FaissState(map[], {})
    {
      this.dim, index, uuidToInt, intToUuid, nextIntId, contents := dim, [], map[], map[], 0, map[];
    }

    method Reset()
      modifies this
      ensures Valid() && State() == FaissState(map[], {}) && index == [] && nextIntId == 0 && uuidToInt == map[]
    {
      index, uuidToInt, intToUuid, nextIntId, contents := [], map[], map[], 0, map[];
    }

    method AddVector(vector: Vector, newId: Id) returns (reply: Reply)
      requires Valid() && newId !in uuidToInt
      modifies this
      ensures Valid() && (State(), reply) == FaissStep(old(State()), dim, Upsert(vector, newId))
    {
      if |vector| != dim {
        return Raised;
      }
      var intId := nextIntId;
      AddedIsRepresented(index, uuidToInt, intToUuid, contents, nextIntId, vector, newId);
      nextIntId := nextIntId + 1;
      uuidToInt := uuidToInt[newId := intId];
      intToUuid := intToUuid[intId := newId];
      index := index + [(intId, vector)];
      contents := contents[newId := vector];
      assert State().stale == old(State().stale);
      return Added;
    }

    method DeleteEntry(entryId: Id) returns (reply: Reply)
      requires Valid()
      modifies this
      ensures Valid() && (State(), reply) == FaissStep(old(State()), dim, Delete(entryId))
    {
      if entryId !in uuidToInt {
        assert entryId !in contents;
        assert contents - {entryId} == contents && State().stale - {entryId} == State().stale;
        return Deleted(false);
      }
      var intId := uuidToInt[entryId];
      RemoveIdKeeps(index, intId);
      uuidToInt := uuidToInt - {entryId};
      intToUuid := intToUuid - {intId};
      index := RemoveId(index, intId);
      contents := contents - {entryId};
      assert State().stale == old(State().stale) - {entryId};
      return Deleted(true);
    }

    method RebuildAll(entries: seq<(Id, Vector)>) returns (reply: Reply)
      requires Valid()
      modifies this
      ensures Valid() && (State(), reply) == FaissStep(old(State()), dim, Rebuild(entries))
    {
      Reset();
      var pairs: seq<(int, Vector)> := [];
      var i := 0;
      while i < |entries|
        invariant 0 <= i <= |entries| && index == [] && contents == map[]
        invariant Loaded(entries, i, pairs, uuidToInt, intToUuid, nextIntId, dim)
      {
        var (entryId, vector) := entries[i];
        if |vector| != dim || entryId in uuidToInt {
          RaisedAt(entries, i, dim, entryId in uuidToInt);
          assert State().stale == PairsMap(entries[..i]).Keys;
          return Raised;
        }
        LoadOne(entries, i, pairs, uuidToInt, intToUuid, nextIntId, dim);
        var intId := nextIntId;
        nextIntId := nextIntId + 1;
        uuidToInt := uuidToInt[entryId := intId];
        intToUuid := intToUuid[intId := entryId];
        pairs := pairs + [(intId, vector)];
        i := i + 1;
      }
      assert entries[..i] == entries;
      RebuiltRepresents(entries, pairs, uuidToInt, intToUuid, nextIntId, dim);
      index := pairs;
      contents := PairsMap(entries);
      assert State().stale == {};
      return Restored(|entries|);
    }

    method FlushAll() returns (reply: Reply)
      modifies this
      ensures Valid() && (State(), reply) == FaissStep(old(State()), dim, Flush)
    {
      Reset();
      return Flushed;
    }

    /** The loop of a search: convert, filter, and translate back to public ids. */
    method Collect(query: Vector, threshold: real, key: (Vector, Vector) -> real, dist: real -> real,
                   picked: seq<Hit>, k: nat) returns (matches: seq<Match>)
      requires Valid() && IsTopK(Hits(index, query, key), k, picked)
      ensures forall m :: m in matches ==> IsMatch(contents, m, query, threshold, key, dist)
      ensures Distances(matches) == AtMost(MapDist(dist, Keys(picked)), threshold)
      ensures forall h :: h in picked ==> h.id in intToUuid
      ensures matches == Converted(picked, |picked|, intToUuid, threshold, dist)
    {
      PickedAreKnown(index, uuidToInt, intToUuid, contents, query, key, k, picked);
      matches := [];
      for i := 0 to |picked|
        invariant matches == Converted(picked, i, intToUuid, threshold, dist)
      {
        var hit := picked[i];
        assert hit in picked;
        var distance := dist(hit.key);
        if distance <= threshold {
          matches := matches + [Match(intToUuid[hit.id], distance)];
        }
      }
      ConvertedAre(picked, |picked|, intToUuid, contents, query, threshold, key, dist);
      assert picked[..|picked|] == picked;
    }

    /** Search with the answer `picked` of the FAISS index itself. `None` is a ValueError.
        No integer is ever unknown, every match is a stored id, and the distances are
        those of a full scan if the metric is monotone on what is stored. */
    method Search(query: Vector, topK: int, threshold: real, key: (Vector, Vector) -> real, dist: real -> real,
                  picked: seq<Hit>) returns (r: Option<seq<Match>>)
      requires Valid()
      requires topK >= 1 && |query| == dim && index != [] ==>
                 IsTopK(Hits(index, query, key), if topK <= |index| then topK else |index|, picked)
      ensures r.None? <==> topK < 1 || |query| != dim
      ensures r.Some? ==> |r.value| <= topK && forall m :: m in r.value ==>
          IsMatch(contents, m, query, threshold, key, dist)
      ensures r.Some? && MonotoneOn(dist, Hits(index, query, key)) ==>
                Distances(r.value) == FilterThenTop(Hits(index, query, key), dist, threshold, topK)
      // nearest first, no id twice, and nothing within the threshold that FAISS picked is lost
      ensures r.Some? ==> DistinctMatches(r.value) && Ascending(Distances(r.value))
      ensures r.Some? && index != [] ==> forall h :: h in picked && dist(h.key) <= threshold ==>
                h.id in intToUuid && Match(intToUuid[h.id], dist(h.key)) in r.value
    {
      if topK < 1 || |query| != dim {
        return None;
      }
      ghost var all := Hits(index, query, key);
      if |index| == 0 {
        assert MapDist(dist, Keys(all)) == [];
        return Some([]);
      }
      var matches := Collect(query, threshold, key, dist, picked, if topK <= |index| then topK else |index|);
      var result := BestMatches(matches, topK);
      BestMatchesKeep(matches, topK);
      FoundAll(index, uuidToInt, intToUuid, contents, nextIntId, query, key,
               if topK <= |index| then topK else |index|, picked, threshold, dist, topK);
      if MonotoneOn(dist, all) {
        SearchDistances(all, if topK <= |index| then topK else |index|, topK, picked, dist, threshold);
      }
      return Some(result);
    }
  }

  /** What the loop of a search makes of the first `n` hits. */
  function Converted(picked: seq<Hit>, n: nat, intToUuid: map<int, Id>, threshold: real, dist: real -> real): seq<Match>
    requires n <= |picked| && forall h :: h in picked ==> h.id in intToUuid
  {
    if n == 0 then []
    else
      var before := Converted(picked, n - 1, intToUuid, threshold, dist);
      var d := dist(picked[n - 1].key);
      if d <= threshold then before + [Match(intToUuid[picked[n - 1].id], d)] else before
  }

  /** FAISS answers with integers that are known, each with the key of its own vector. */
  ghost predicate Known(picked: seq<Hit>, intToUuid: map<int, Id>, contents: map<Id, Vector>, query: Vector,
                        key: (Vector, Vector) -> real) {
    forall h :: h in picked ==>
      h.id in intToUuid && intToUuid[h.id] in contents && h.key == key(query, contents[intToUuid[h.id]])
  }

  lemma PickedAreKnown(index: seq<(int, Vector)>, uuidToInt: map<Id, int>, intToUuid: map<int, Id>,
                       contents: map<Id, Vector>, query: Vector, key: (Vector, Vector) -> real, k: nat,
                       picked: seq<Hit>)
    requires Represents(index, uuidToInt, intToUuid, contents) && IsTopK(Hits(index, query, key), k, picked)
    ensures Known(picked, intToUuid, contents, query, key)
  {
    PickedAreStored(index, query, key, k, picked);
    forall h | h in picked
      ensures h.id in intToUuid && intToUuid[h.id] in contents && h.key == key(query, contents[intToUuid[h.id]])
    {
      var i :| 0 <= i < |index| && h == Hit(index[i].0, key(query, index[i].1));
      assert index[i] in index;
    }
  }

  lemma {:induction false} ConvertedAre(picked: seq<Hit>, n: nat, intToUuid: map<int, Id>, contents: map<Id, Vector>,
                                        query: Vector, threshold: real, key: (Vector, Vector) -> real,
                                        dist: real -> real)
    requires n <= |picked| && Known(picked, intToUuid, contents, query, key)
    ensures var r := Converted(picked, n, intToUuid, threshold, dist);
            && Distances(r) == AtMost(MapDist(dist, Keys(picked[..n])), threshold)
            && forall m :: m in r ==> IsMatch(contents, m, query, threshold, key, dist)
  {
    if n > 0 {
      ConvertedAre(picked, n - 1, intToUuid, contents, query, threshold, key, dist);
      assert picked[n - 1] in picked;
      OneMoreDistance(picked, n - 1, dist, threshold, Converted(picked, n - 1, intToUuid, threshold, dist),
                      intToUuid[picked[n - 1].id]);
    }
  }

  lemma {:induction false} ConvertedAll(picked: seq<Hit>, n: nat, intToUuid: map<int, Id>, threshold: real,
                                        dist: real -> real)
    requires n <= |picked| && forall h :: h in picked ==> h.id in intToUuid
    requires forall i, j :: 0 <= i < j < |picked| ==> intToUuid[picked[i].id] != intToUuid[picked[j].id]
    ensures var r := Converted(picked, n, intToUuid, threshold, dist);
            && |r| <= n && DistinctMatches(r)
            && (forall m :: m in r ==> exists i :: 0 <= i < n && m.id == intToUuid[picked[i].id])
            && forall i :: 0 <= i < n && dist(picked[i].key) <= threshold ==>
                 Match(intToUuid[picked[i].id], dist(picked[i].key)) in r
  {
    if n > 0 {
      ConvertedAll(picked, n - 1, intToUuid, threshold, dist);
      var before := Converted(picked, n - 1, intToUuid, threshold, dist);
      forall k | 0 <= k < |before| ensures before[k].id != intToUuid[picked[n - 1].id] { assert before[k] in before; }
    }
  }

  /** FAISS picks no vector twice. */
  lemma PickedOnce(all: seq<Hit>, k: nat, picked: seq<Hit>)
    requires IsTopK(all, k, picked) && forall i, j :: 0 <= i < j < |all| ==> all[i].id != all[j].id
    ensures forall i, j :: 0 <= i < j < |picked| ==> picked[i].id != picked[j].id
  {
    var rest :| Splits(all, picked, rest);
    forall i, j | 0 <= i < j < |picked| ensures picked[i].id != picked[j].id {
      PickedIn(all, picked, rest, picked[i]);
      PickedIn(all, picked, rest, picked[j]);
      if picked[i] == picked[j] {
        TwiceIn(picked, i, j);
        HitsOnce(all, picked[i]);
      }
    }
  }

  lemma PickedIn(all: seq<Hit>, picked: seq<Hit>, rest: seq<Hit>, h: Hit)
    requires Splits(all, picked, rest) && h in picked
    ensures exists i :: 0 <= i < |all| && all[i] == h
    ensures multiset(all)[h] >= multiset(picked)[h]
  {
    assert h in multiset(all);
  }

  lemma TwiceIn(s: seq<Hit>, i: nat, j: nat)
    requires i < j < |s| && s[i] == s[j]
    ensures multiset(s)[s[i]] >= 2
  {
    assert s == s[..j] + [s[j]] + s[j + 1..];
    assert s[..j][i] == s[i] && s[i] in s[..j];
  }

  /** What comes out of a search of vectors none of which is picked twice. */
  lemma FoundAll(index: seq<(int, Vector)>, uuidToInt: map<Id, int>, intToUuid: map<int, Id>,
                 contents: map<Id, Vector>, next: int, query: Vector, key: (Vector, Vector) -> real, k: nat,
                 picked: seq<Hit>, threshold: real, dist: real -> real, topK: nat)
    requires Inverse(uuidToInt, intToUuid, next) && Represents(index, uuidToInt, intToUuid, contents)
    requires IsTopK(Hits(index, query, key), k, picked) && k <= topK && forall h :: h in picked ==> h.id in intToUuid
    ensures var r := BestMatches(Converted(picked, |picked|, intToUuid, threshold, dist), topK);
            && DistinctMatches(r) && Ascending(Distances(r))
            && forall h :: h in picked && dist(h.key) <= threshold ==> Match(intToUuid[h.id], dist(h.key)) in r
  {
    PickedOnce(Hits(index, query, key), k, picked);
    forall i, j | 0 <= i < j < |picked| ensures intToUuid[picked[i].id] != intToUuid[picked[j].id] {
      assert picked[i] in picked && picked[j] in picked;
    }
    ConvertedAll(picked, |picked|, intToUuid, threshold, dist);
    BestAreAll(Converted(picked, |picked|, intToUuid, threshold, dist), topK);
  }

  lemma {:induction false} HitsOnce(all: seq<Hit>, h: Hit)
    requires forall i, j :: 0 <= i < j < |all| ==> all[i].id != all[j].id
    ensures multiset(all)[h] <= 1
  {
    if all != [] {
      HitsOnce(all[1..], h);
      assert all == [all[0]] + all[1..];
    }
  }

  /** Cutting at `topK` leaves out nothing if there is not more. */
  lemma BestAreAll(matches: seq<Match>, topK: nat)
    requires |matches| <= topK && DistinctMatches(matches)
    ensures var r := BestMatches(matches, topK);
            DistinctMatches(r) && Ascending(Distances(r)) && forall m :: m in matches ==> m in r
  {
    SortMatchesKeeps(matches);
    SortMatchesDistinct(matches);
    SortMatchesDistances(matches);
    SortAscending(Distances(matches));
    assert |SortMatches(matches)| == |matches|;
  }

  lemma {:induction false} SortMatchesDistinct(s: seq<Match>)
    requires DistinctMatches(s)
    ensures DistinctMatches(SortMatches(s)) && |SortMatches(s)| == |s|
  {
    if s != [] {
      SortMatchesDistinct(s[1..]);
      SortMatchesKeeps(s[1..]);
      InsertMatchDistinct(s[0], SortMatches(s[1..]));
    }
  }

  lemma {:induction false} InsertMatchDistinct(m: Match, s: seq<Match>)
    requires DistinctMatches(s) && forall x :: x in s ==> x.id != m.id
    ensures DistinctMatches(InsertMatch(m, s)) && |InsertMatch(m, s)| == |s| + 1
  {
    if s != [] {
      InsertMatchDistinct(m, s[1..]);
      InsertMatchKeeps(m, s[1..]);
      assert s == [s[0]] + s[1..] && s[0] in s;
      forall x | x in InsertMatch(m, s[1..]) ensures x.id != s[0].id {
        if x != m { var k :| 0 <= k < |s[1..]| && s[1..][k] == x; }
      }
    }
  }

  lemma {:induction false} AtMostLength(s: seq<real>, t: real)
    ensures |AtMost(s, t)| <= |s|
  {
    if s != [] { AtMostLength(s[1..], t); }
  }

  lemma SortLength(s: seq<real>)
    ensures |SortReals(s)| == |s|
  {
    assert |SortReals(s)| == |multiset(SortReals(s))| == |multiset(s)| == |s|;
  }

  /** Asking for more than is stored changes nothing. */
  lemma LongEnough(all: seq<Hit>, k: nat, dist: real -> real, t: real, topK: nat)
    requires k == if topK <= |all| then topK else |all|
    ensures FilterThenTop(all, dist, t, k) == FilterThenTop(all, dist, t, topK)
  {
    AtMostLength(MapDist(dist, Keys(all)), t);
    SortLength(AtMost(MapDist(dist, Keys(all)), t));
  }

  lemma ShortEnough(picked: seq<Hit>, dist: real -> real, t: real, k: nat, topK: nat)
    requires |picked| <= k <= topK
    ensures TopThenFilter(picked, dist, t, k) == Take(SortReals(AtMost(MapDist(dist, Keys(picked)), t)), topK)
  {
    AtMostLength(MapDist(dist, Keys(picked)), t);
    SortLength(AtMost(MapDist(dist, Keys(picked)), t));
  }

  lemma SearchDistances(all: seq<Hit>, k: nat, topK: nat, picked: seq<Hit>, dist: real -> real, t: real)
    requires k == (if topK <= |all| then topK else |all|) && IsTopK(all, k, picked) && MonotoneOn(dist, all)
    ensures Take(SortReals(AtMost(MapDist(dist, Keys(picked)), t)), topK) == FilterThenTop(all, dist, t, topK)
  {
    TopKSearchIsExact(all, k, picked, dist, t);
    LongEnough(all, k, dist, t, topK);
    ShortEnough(picked, dist, t, k, topK);
  }

  lemma PickedAreStored(index: seq<(int, Vector)>, query: Vector, key: (Vector, Vector) -> real, k: nat,
      picked: seq<Hit>)
    requires IsTopK(Hits(index, query, key), k, picked)
    ensures forall h :: h in picked ==> exists i :: 0 <= i < |index| && h == Hit(index[i].0, key(query, index[i].1))
  {
    var all := Hits(index, query, key);
    var rest :| Splits(all, picked, rest);
    forall h | h in picked ensures exists i :: 0 <= i < |index| && h == Hit(index[i].0, key(query, index[i].1)) {
      assert h in multiset(picked) + multiset(rest);
      assert h in all;
      var i :| 0 <= i < |all| && all[i] == h;
      assert h == Hit(index[i].0, key(query, index[i].1));
    }
  }

  lemma RaisedAt(entries: seq<(Id, Vector)>, i: nat, dim: nat, duplicate: bool)
    requires i < |entries| && forall k :: 0 <= k < i ==> Acceptable(entries, k, dim)
    requires duplicate <==> entries[i].0 in PairsMap(entries[..i])
    requires |entries[i].1| != dim || duplicate
    ensures !AllAcceptable(entries, dim) && AcceptedPrefix(entries, dim) == entries[..i]
  {
    PairsMapKeys(entries[..i]);
    assert !Acceptable(entries, i, dim) by {
      if duplicate {
        var j :| 0 <= j < i && entries[..i][j].0 == entries[i].0;
        assert entries[j].0 == entries[i].0;
      }
    }
    AcceptedPrefixAt(entries, i, dim);
  }

  /** The state of a rebuild that has read `i` acceptable entries. */
  ghost predicate Loaded(entries: seq<(Id, Vector)>, i: nat, pairs: seq<(int, Vector)>, uuidToInt: map<Id, int>,
                         intToUuid: map<int, Id>, next: int, dim: nat)
    requires i <= |entries|
  {
    && next == |pairs| == i
    && Inverse(uuidToInt, intToUuid, next)
    && (forall k :: 0 <= k < i ==> Acceptable(entries, k, dim))
    && uuidToInt.Keys == PairsMap(entries[..i]).Keys
    && (forall k :: 0 <= k < i ==> pairs[k] == (k, entries[k].1) && k in intToUuid && intToUuid[k] == entries[k].0)
  }

  lemma LoadOne(entries: seq<(Id, Vector)>, i: nat, pairs: seq<(int, Vector)>, uuidToInt: map<Id, int>,
                intToUuid: map<int, Id>, next: int, dim: nat)
    requires i < |entries| && Loaded(entries, i, pairs, uuidToInt, intToUuid, next, dim)
    requires |entries[i].1| == dim && entries[i].0 !in uuidToInt
    ensures Loaded(entries, i + 1, pairs + [(next, entries[i].1)], uuidToInt[entries[i].0 := next],
                   intToUuid[next := entries[i].0], next + 1, dim)
  {
    assert entries[..i + 1][..i] == entries[..i];
    PairsMapKeys(entries[..i]);
    forall j | 0 <= j < i ensures entries[j].0 != entries[i].0 {
      assert entries[..i][j].0 in PairsMap(entries[..i]).Keys;
    }
    assert Acceptable(entries, i, dim);
  }

  lemma RebuiltRepresents(entries: seq<(Id, Vector)>, pairs: seq<(int, Vector)>, uuidToInt: map<Id, int>,
                          intToUuid: map<int, Id>, next: int, dim: nat)
    requires Loaded(entries, |entries|, pairs, uuidToInt, intToUuid, next, dim)
    ensures Represents(pairs, uuidToInt, intToUuid, PairsMap(entries))
    ensures AllAcceptable(entries, dim) && uuidToInt.Keys == PairsMap(entries).Keys
  {
    assert entries[..|entries|] == entries;
    ValuesOfAccepted(entries, dim);
    PairsMapKeys(entries);
    var m := PairsMap(entries);
    forall p | p in pairs ensures p.0 in intToUuid && intToUuid[p.0] in m && m[intToUuid[p.0]] == p.1 {
      var k :| 0 <= k < |pairs| && pairs[k] == p;
    }
    forall u | u in m ensures u in uuidToInt && (uuidToInt[u], m[u]) in pairs {
      var k :| 0 <= k < |entries| && entries[k].0 == u;
      assert uuidToInt[intToUuid[k]] == k;
      assert pairs[k] in pairs;
    }
  }

  // ---- the plain index -------------------------------------------------------------------------------

  /** `ids` and `vecs` list exactly the vectors of `contents`. */
  ghost predicate Lists(ids: seq<Id>, vecs: seq<Vector>, contents: map<Id, Vector>) {
    && |ids| == |vecs|
    && (forall i, j :: 0 <= i < j < |ids| ==> ids[i] != ids[j])
    && (forall i :: 0 <= i < |ids| ==> ids[i] in contents && contents[ids[i]] == vecs[i])
    && (forall u :: u in contents ==> u in ids)
  }

  function PlainHits(vecs: seq<Vector>, query: Vector, key: (Vector, Vector) -> real): (r: seq<Hit>)
    ensures |r| == |vecs| && forall i :: 0 <= i < |vecs| ==> r[i] == Hit(i, key(query, vecs[i]))
  {
    seq(|vecs|, i requires 0 <= i < |vecs| => Hit(i, key(query, vecs[i])))
  }

  class NumpyIndex {
    const dim: nat
    var ids: seq<Id>
    var vecs: seq<Vector>
    ghost var contents: map<Id, Vector>

    ghost predicate Valid()
      reads this
    {
      Lists(ids, vecs, contents)
    }

    constructor (dim: nat)
      ensures Valid() && this.dim == dim && contents == map[]
    {
      this.dim, ids, vecs, contents := dim, [], [], map[];
    }

    method AddVector(vector: Vector, newId: Id) returns (reply: Reply)
      requires Valid() && newId !in contents
      modifies this
      ensures Valid() && (contents, reply) == PlainStep(old(contents), dim, Upsert(vector, newId))
    {
      if |vector| != dim {
        return Raised;
      }
      ids := ids + [newId];
      vecs := vecs + [vector];
      contents := contents[newId := vector];
      return Added;
    }

    method DeleteEntry(entryId: Id) returns (reply: Reply)
      requires Valid()
      modifies this
      ensures Valid() && (contents, reply) == PlainStep(old(contents), dim, Delete(entryId))
    {
      if entryId !in ids {
        assert contents - {entryId} == contents;
        return Deleted(false);
      }
      var i := 0;
      while ids[i] != entryId
        invariant 0 <= i < |ids| && entryId in ids[i..]
        decreases |ids| - i
      {
        i := i + 1;
      }
      ListsWithout(ids, vecs, contents, i);
      ids := ids[..i] + ids[i + 1..];
      vecs := vecs[..i] + vecs[i + 1..];
      contents := contents - {entryId};
      return Deleted(true);
    }

    method RebuildAll(entries: seq<(Id, Vector)>) returns (reply: Reply)
      requires Valid()
      modifies this
      ensures Valid() && (contents, reply) == PlainStep(old(contents), dim, Rebuild(entries))
    {
      var newIds: seq<Id>, newVecs: seq<Vector>, seen: set<Id> := [], [], {};
      for i := 0 to |entries|
        invariant |newIds| == |newVecs| == i
        invariant forall k :: 0 <= k < i ==> Acceptable(entries, k, dim)
        invariant forall k :: 0 <= k < i ==> newIds[k] == entries[k].0 && newVecs[k] == entries[k].1
        invariant forall id :: id in seen <==> id in newIds
        invariant unchanged(this)
      {
        var (entryId, vector) := entries[i];
        if |vector| != dim || entryId in seen {
          assert !Acceptable(entries, i, dim);
          return Raised;
        }
        seen := seen + {entryId};
        newIds := newIds + [entryId];
        newVecs := newVecs + [vector];
      }
      PlainRebuilt(entries, newIds, newVecs, dim);
      ids, vecs, contents := newIds, newVecs, PairsMap(entries);
      return Restored(|entries|);
    }

    method FlushAll() returns (reply: Reply)
      modifies this
      ensures Valid() && (contents, reply) == PlainStep(old(contents), dim, Flush)
    {
      ids, vecs, contents := [], [], map[];
      return Flushed;
    }

    /** Everything within the threshold, in the order of the list. */
    method Scan(query: Vector, threshold: real, key: (Vector, Vector) -> real, dist: real -> real)
      returns (matches: seq<Match>)
      requires Valid()
      ensures matches == Within(ids, vecs, |vecs|, query, threshold, key, dist)
    {
      matches := [];
      for i := 0 to |vecs|
        invariant matches == Within(ids, vecs, i, query, threshold, key, dist)
      {
        var distance := dist(key(query, vecs[i]));
        if distance <= threshold {
          matches := matches + [Match(ids[i], distance)];
        }
      }
    }

    /** Scan everything, filter, sort by (distance, id), take the first `topK`. */
    method Search(query: Vector, topK: int, threshold: real, key: (Vector, Vector) -> real, dist: real -> real)
      returns (r: Option<seq<Match>>)
      requires Valid()
      ensures r.None? <==> topK < 1 || |query| != dim
      ensures r.Some? ==> forall m :: m in r.value ==> IsMatch(contents, m, query, threshold, key, dist)
      ensures r.Some? ==> Distances(r.value) == FilterThenTop(PlainHits(vecs, query, key), dist, threshold, topK)
      // ranked by distance and then id, and complete up to `topK`
      ensures r.Some? ==> Ranked(r.value) && |r.value| <= topK
      ensures r.Some? ==> forall id :: id in contents && dist(key(query, contents[id])) <= threshold ==>
                var m := Match(id, dist(key(query, contents[id])));
                m in r.value || (|r.value| == topK && forall x :: x in r.value ==> Ahead(x, m))
    {
      if topK < 1 || |query| != dim {
        return None;
      }
      if ids == [] {
        assert MapDist(dist, Keys(PlainHits(vecs, query, key))) == [];
        return Some([]);
      }
      var matches := Scan(query, threshold, key, dist);
      WithinIsScanned(ids, vecs, |vecs|, query, threshold, key, dist);
      WithinDistances(ids, vecs, |vecs|, query, threshold, key, dist);
      assert PlainHits(vecs, query, key)[..|vecs|] == PlainHits(vecs, query, key);
      SortByIdDistances(matches);
      FirstByIdKeep(matches, topK);
      FirstByIdBest(matches, topK);
      AllScanned(ids, vecs, contents, query, threshold, key, dist, matches);
      return Some(FirstById(matches, topK));
    }
  }

  /** The matches among the first `n` stored vectors. */
  function Within(ids: seq<Id>, vecs: seq<Vector>, n: nat, query: Vector, threshold: real,
                  key: (Vector, Vector) -> real, dist: real -> real): seq<Match>
    requires n <= |vecs| == |ids|
  {
    if n == 0 then []
    else
      var d := dist(key(query, vecs[n - 1]));
      var before := Within(ids, vecs, n - 1, query, threshold, key, dist);
      if d <= threshold then before + [Match(ids[n - 1], d)] else before
  }

  lemma {:induction false} WithinIsScanned(ids: seq<Id>, vecs: seq<Vector>, n: nat, query: Vector, threshold: real,
                                           key: (Vector, Vector) -> real, dist: real -> real)
    requires n <= |vecs| == |ids| && forall a, b :: 0 <= a < b < |ids| ==> ids[a] != ids[b]
    ensures Scanned(ids, vecs, n, query, threshold, key, dist, Within(ids, vecs, n, query, threshold, key, dist))
  {
    if n > 0 {
      WithinIsScanned(ids, vecs, n - 1, query, threshold, key, dist);
      ScanOne(ids, vecs, n, query, threshold, key, dist);
    }
  }

  lemma {:induction false} WithinDistances(ids: seq<Id>, vecs: seq<Vector>, n: nat, query: Vector, threshold: real,
                                           key: (Vector, Vector) -> real, dist: real -> real)
    requires n <= |vecs| == |ids|
    ensures Distances(Within(ids, vecs, n, query, threshold, key, dist))
         == AtMost(MapDist(dist, Keys(PlainHits(vecs, query, key)[..n])), threshold)
  {
    if n > 0 {
      WithinDistances(ids, vecs, n - 1, query, threshold, key, dist);
      OneMoreDistance(PlainHits(vecs, query, key), n - 1, dist, threshold,
                      Within(ids, vecs, n - 1, query, threshold, key, dist), ids[n - 1]);
    }
  }

  /** `matches` are those of the first `n` stored vectors within the threshold, once each. */
  ghost predicate Scanned(ids: seq<Id>, vecs: seq<Vector>, n: nat, query: Vector, threshold: real,
                          key: (Vector, Vector) -> real, dist: real -> real, matches: seq<Match>)
    requires n <= |vecs| == |ids|
  {
    && DistinctMatches(matches)
    && (forall m :: m in matches ==>
          m.distance <= threshold && exists k :: 0 <= k < n && IsAt(ids, vecs, k, query, key, dist, m))
    && forall k :: 0 <= k < n && dist(key(query, vecs[k])) <= threshold ==>
         Match(ids[k], dist(key(query, vecs[k]))) in matches
  }

  predicate IsAt(ids: seq<Id>, vecs: seq<Vector>, k: nat, query: Vector, key: (Vector, Vector) -> real,
                 dist: real -> real, m: Match)
    requires k < |vecs| == |ids|
  {
    m == Match(ids[k], dist(key(query, vecs[k])))
  }

  lemma OneMoreDistance(all: seq<Hit>, i: nat, dist: real -> real, threshold: real, matches: seq<Match>, id: Id)
    requires i < |all| && Distances(matches) == AtMost(MapDist(dist, Keys(all[..i])), threshold)
    ensures var d := dist(all[i].key);
            Distances(if d <= threshold then matches + [Match(id, d)] else matches)
              == AtMost(MapDist(dist, Keys(all[..i + 1])), threshold)
  {
    OneMoreHit(all, i, dist, threshold);
    var d := dist(all[i].key);
    assert Distances(matches + [Match(id, d)]) == Distances(matches) + [d];
  }

  lemma ScanOne(ids: seq<Id>, vecs: seq<Vector>, n: nat, query: Vector, threshold: real,
                key: (Vector, Vector) -> real, dist: real -> real)
    requires 0 < n <= |vecs| == |ids| && forall a :: 0 <= a < n - 1 ==> ids[a] != ids[n - 1]
    requires Scanned(ids, vecs, n - 1, query, threshold, key, dist,
                     Within(ids, vecs, n - 1, query, threshold, key, dist))
    ensures Scanned(ids, vecs, n, query, threshold, key, dist, Within(ids, vecs, n, query, threshold, key, dist))
  {
    var before := Within(ids, vecs, n - 1, query, threshold, key, dist);
    var after := Within(ids, vecs, n, query, threshold, key, dist);
    forall x | x in after
      ensures x.distance <= threshold && exists k :: 0 <= k < n && IsAt(ids, vecs, k, query, key, dist, x)
    {
      if x in before {
        var k :| 0 <= k < n - 1 && IsAt(ids, vecs, k, query, key, dist, x);
      } else {
        assert IsAt(ids, vecs, n - 1, query, key, dist, x);
      }
    }
    forall a | 0 <= a < |before| ensures before[a].id != ids[n - 1] {
      assert before[a] in before;
      var k :| 0 <= k < n - 1 && IsAt(ids, vecs, k, query, key, dist, before[a]);
    }
  }

  /** What was scanned is what is stored. */
  lemma AllScanned(ids: seq<Id>, vecs: seq<Vector>, contents: map<Id, Vector>, query: Vector, threshold: real,
                   key: (Vector, Vector) -> real, dist: real -> real, matches: seq<Match>)
    requires Lists(ids, vecs, contents) && Scanned(ids, vecs, |vecs|, query, threshold, key, dist, matches)
    ensures forall m :: m in matches ==> IsMatch(contents, m, query, threshold, key, dist)
    ensures forall id :: id in contents && dist(key(query, contents[id])) <= threshold ==>
              Match(id, dist(key(query, contents[id]))) in matches
  {
    forall m | m in matches ensures IsMatch(contents, m, query, threshold, key, dist) {
      var k :| 0 <= k < |vecs| && IsAt(ids, vecs, k, query, key, dist, m);
    }
    forall id | id in contents && dist(key(query, contents[id])) <= threshold
      ensures Match(id, dist(key(query, contents[id]))) in matches
    {
      var k :| 0 <= k < |ids| && ids[k] == id;
      assert vecs[k] == contents[id];
    }
  }

  /** `matches.sort(key=(distance, id))`. */
  function InsertById(m: Match, s: seq<Match>): seq<Match> {
    if s == [] || m.distance < s[0].distance || (m.distance == s[0].distance && !LexLess(s[0].id, m.id)) then [m] + s
    else [s[0]] + InsertById(m, s[1..])
  }

  function SortById(s: seq<Match>): seq<Match> {
    if s == [] then [] else InsertById(s[0], SortById(s[1..]))
  }

  function FirstById(s: seq<Match>, topK: nat): (r: seq<Match>)
    ensures Distances(r) == Take(Distances(SortById(s)), topK)
  {
    var sorted := SortById(s);
    if |sorted| <= topK then sorted else sorted[..topK]
  }

  lemma {:induction false} InsertByIdDistances(m: Match, s: seq<Match>)
    requires Ascending(Distances(s))
    ensures Distances(InsertById(m, s)) == InsertReal(m.distance, Distances(s))
  {
    if s != [] {
      assert s == [s[0]] + s[1..];
      DistancesCons(s[0], s[1..]);
      InsertByIdDistances(m, s[1..]);
      InsertByIdOnce(m, s);
    }
  }

  lemma InsertByIdOnce(m: Match, s: seq<Match>)
    requires s != [] && Ascending(Distances(s))
    requires Distances(InsertById(m, s[1..])) == InsertReal(m.distance, Distances(s[1..]))
    ensures Distances(InsertById(m, s)) == InsertReal(m.distance, Distances(s))
  {
    DistancesSplit(s);
    DistancesCons(m, s);
    DistancesCons(s[0], InsertById(m, s[1..]));
    if m.distance == s[0].distance { InsertEqual(m.distance, Distances(s)); }
  }

  lemma DistancesSplit(s: seq<Match>)
    requires s != []
    ensures Distances(s) != [] && Distances(s)[0] == s[0].distance && Distances(s)[1..] == Distances(s[1..])
  {
    assert s == [s[0]] + s[1..];
    DistancesCons(s[0], s[1..]);
  }

  lemma {:induction false} SortByIdDistances(s: seq<Match>)
    ensures Distances(SortById(s)) == SortReals(Distances(s))
  {
    if s != [] {
      var d := Distances(s[1..]);
      SortByIdDistances(s[1..]);
      DistancesSplit(s);
      SortAscending(d);
      InsertByIdDistances(s[0], SortById(s[1..]));
    }
  }

  lemma {:induction false} InsertByIdKeeps(m: Match, s: seq<Match>)
    ensures forall x :: x in InsertById(m, s) <==> x == m || x in s
  {
    if s != [] {
      InsertByIdKeeps(m, s[1..]);
      assert s == [s[0]] + s[1..];
    }
  }

  lemma {:induction false} SortByIdKeeps(s: seq<Match>)
    ensures forall x :: x in SortById(s) <==> x in s
  {
    if s != [] {
      SortByIdKeeps(s[1..]);
      InsertByIdKeeps(s[0], SortById(s[1..]));
      assert s == [s[0]] + s[1..];
    }
  }

  lemma FirstByIdKeep(s: seq<Match>, topK: nat)
    ensures forall m :: m in FirstById(s, topK) ==> m in s
  {
    SortByIdKeeps(s);
  }

  /** Nearer, or equally near with the smaller id. */
  predicate Ahead(a: Match, b: Match) {
    a.distance < b.distance || (a.distance == b.distance && LexLess(a.id, b.id))
  }

  /** Each match is nearer than the next ones, or equally near with a smaller id. */
  ghost predicate Ranked(s: seq<Match>) {
    forall i, j :: 0 <= i < j < |s| ==> Ahead(s[i], s[j])
  }

  ghost predicate DistinctMatches(s: seq<Match>) {
    forall i, j :: 0 <= i < j < |s| ==> s[i].id != s[j].id
  }

  lemma AheadTransitive(a: Match, b: Match, c: Match)
    requires Ahead(a, b) && Ahead(b, c)
    ensures Ahead(a, c)
  {
    if a.distance == b.distance == c.distance { LexTransitive(a.id, b.id, c.id); }
  }

  lemma {:induction false} InsertByIdRanks(m: Match, s: seq<Match>)
    requires Ranked(s) && forall x :: x in s ==> x.id != m.id
    ensures Ranked(InsertById(m, s))
  {
    if s != [] {
      LexTotal(m.id, s[0].id);
      assert s == [s[0]] + s[1..] && s[0] in s;
      if Ahead(m, s[0]) {
        AlreadyAhead(m, s[0]);
        forall j | 0 < j < |s| ensures Ahead(m, s[j]) { AheadTransitive(m, s[0], s[j]); }
      } else {
        InsertByIdRanks(m, s[1..]);
        InsertByIdKeeps(m, s[1..]);
        forall x | x in InsertById(m, s[1..]) ensures Ahead(s[0], x) {}
      }
    }
  }

  lemma AlreadyAhead(a: Match, b: Match)
    requires Ahead(a, b)
    ensures a.distance == b.distance ==> !LexLess(b.id, a.id)
  {
    if LexLess(b.id, a.id) && a.distance == b.distance {
      LexTransitive(a.id, b.id, a.id);
      LexIrreflexive(a.id);
    }
  }

  lemma {:induction false} SortByIdRanks(s: seq<Match>)
    requires DistinctMatches(s)
    ensures Ranked(SortById(s))
  {
    if s != [] {
      SortByIdRanks(s[1..]);
      SortByIdKeeps(s[1..]);
      InsertByIdRanks(s[0], SortById(s[1..]));
    }
  }

  /** The first `topK` of the ranking: whatever is not among them comes after all of them, and then
      there are `topK` of them. */
  lemma FirstByIdBest(s: seq<Match>, topK: nat)
    requires DistinctMatches(s)
    ensures var r := FirstById(s, topK);
            && Ranked(r) && |r| <= topK
            && forall m :: m in s && m !in r ==> |r| == topK && forall x :: x in r ==> Ahead(x, m)
  {
    SortByIdRanks(s);
    SortByIdKeeps(s);
    var r, sorted := FirstById(s, topK), SortById(s);
    assert forall k :: 0 <= k < |r| ==> sorted[k] == r[k] && r[k] in r;
    forall m | m in s && m !in r ensures |r| == topK && forall x :: x in r ==> Ahead(x, m) {
      var k :| 0 <= k < |sorted| && sorted[k] == m;
      assert k >= |r|;
    }
  }

  /** Inserting a value after an equal one gives the same sequence. */
  lemma InsertEqual(x: real, s: seq<real>)
    requires Ascending(s) && s != [] && s[0] == x
    ensures InsertReal(x, s) == [s[0]] + InsertReal(x, s[1..])
  {
    if |s| > 1 {
      assert s[0] <= s[1];
      assert s == [s[0]] + s[1..];
    }
  }

  lemma ListsWithout(ids: seq<Id>, vecs: seq<Vector>, contents: map<Id, Vector>, i: nat)
    requires Lists(ids, vecs, contents) && i < |ids|
    ensures Lists(ids[..i] + ids[i + 1..], vecs[..i] + vecs[i + 1..], contents - {ids[i]})
  {
    var r, v := ids[..i] + ids[i + 1..], vecs[..i] + vecs[i + 1..];
    forall k | 0 <= k < |r| ensures r[k] == ids[if k < i then k else k + 1]
        && v[k] == vecs[if k < i then k else k + 1] {}
    forall u | u in contents - {ids[i]} ensures u in r {
      var k :| 0 <= k < |ids| && ids[k] == u;
      assert r[if k < i then k else k - 1] == u;
    }
  }

  lemma ListsNothing(ids: seq<Id>, vecs: seq<Vector>, contents: map<Id, Vector>)
    requires Lists(ids, vecs, contents)
    ensures ids == [] <==> contents == map[]
  {
    if ids != [] { assert ids[0] in contents; }
    if contents != map[] {
      var u :| u in contents;
      assert u in ids;
    }
  }

  lemma PlainRebuilt(entries: seq<(Id, Vector)>, newIds: seq<Id>, newVecs: seq<Vector>, dim: nat)
    requires AllAcceptable(entries, dim) && |newIds| == |newVecs| == |entries|
    requires forall k :: 0 <= k < |entries| ==> newIds[k] == entries[k].0 && newVecs[k] == entries[k].1
    ensures Lists(newIds, newVecs, PairsMap(entries))
  {
    ValuesOfAccepted(entries, dim);
    PairsMapKeys(entries);
    forall u | u in PairsMap(entries) ensures u in newIds {
      var k :| 0 <= k < |entries| && entries[k].0 == u;
      assert newIds[k] == u;
    }
  }

  // ---- the two indexes search alike -----------------------------------------------------------------------

  lemma DropLast(index: seq<(int, Vector)>, uuidToInt: map<Id, int>, intToUuid: map<int, Id>, next: int,
      contents: map<Id, Vector>)
    requires Inverse(uuidToInt, intToUuid, next) && Represents(index, uuidToInt, intToUuid, contents) && index != []
    ensures index[|index| - 1].0 in intToUuid
    ensures var u := intToUuid[index[|index| - 1].0];
            u in contents && contents[u] == index[|index| - 1].1
            && Represents(index[..|index| - 1], uuidToInt, intToUuid, contents - {u})
  {
    var n := |index| - 1;
    assert index[n] in index;
    var u := intToUuid[index[n].0];
    var rest, left := index[..n], contents - {u};
    forall p | p in rest ensures p.0 in intToUuid && intToUuid[p.0] in left && left[intToUuid[p.0]] == p.1 {
      var k :| 0 <= k < n && index[k] == p;
      assert index[k] in index && index[k].0 != index[n].0;
    }
    forall v | v in left ensures v in uuidToInt && (uuidToInt[v], left[v]) in rest {
      var k :| 0 <= k < |index| && index[k] == (uuidToInt[v], contents[v]);
      assert k != n;
      assert rest[k] == index[k];
    }
  }

  lemma AddBackDistance(index: seq<(int, Vector)>, vecs: seq<Vector>, i: nat,
                        query: Vector, key: (Vector, Vector) -> real, dist: real -> real)
    requires index != [] && i < |vecs| && index[|index| - 1].1 == vecs[i]
    requires multiset(MapDist(dist, Keys(Hits(index[..|index| - 1], query, key))))
          == multiset(MapDist(dist, Keys(PlainHits(vecs[..i] + vecs[i + 1..], query, key))))
    ensures multiset(MapDist(dist, Keys(Hits(index, query, key))))
        == multiset(MapDist(dist, Keys(PlainHits(vecs, query, key))))
  {
    var n := |index| - 1;
    var di, dv := MapDist(dist, Keys(Hits(index, query, key))), MapDist(dist, Keys(PlainHits(vecs, query, key)));
    assert di == MapDist(dist, Keys(Hits(index[..n], query, key))) + [di[n]];
    assert dv == dv[..i] + [dv[i]] + dv[i + 1..];
    assert MapDist(dist, Keys(PlainHits(vecs[..i] + vecs[i + 1..], query, key))) == dv[..i] + dv[i + 1..];
  }

  /** However the two indexes order what they hold, the distances to a query are the same. */
  lemma {:induction false} SameDistances(index: seq<(int, Vector)>, uuidToInt: map<Id, int>,
                                         intToUuid: map<int, Id>, next: int,
                                         ids: seq<Id>, vecs: seq<Vector>, contents: map<Id, Vector>,
                                         query: Vector, key: (Vector, Vector) -> real, dist: real -> real)
    requires Inverse(uuidToInt, intToUuid, next) && Represents(index, uuidToInt, intToUuid, contents)
    requires Lists(ids, vecs, contents)
    ensures multiset(MapDist(dist, Keys(Hits(index, query, key))))
        == multiset(MapDist(dist, Keys(PlainHits(vecs, query, key))))
    decreases |index|
  {
    var di, dv := MapDist(dist, Keys(Hits(index, query, key))), MapDist(dist, Keys(PlainHits(vecs, query, key)));
    if index == [] {
      assert contents == map[];
      ListsNothing(ids, vecs, contents);
      assert di == [] && dv == [];
    } else {
      var n := |index| - 1;
      DropLast(index, uuidToInt, intToUuid, next, contents);
      var u := intToUuid[index[n].0];
      var i :| 0 <= i < |ids| && ids[i] == u;
      ListsWithout(ids, vecs, contents, i);
      var vecs' := vecs[..i] + vecs[i + 1..];
      SameDistances(index[..n], uuidToInt, intToUuid, next, ids[..i] + ids[i + 1..], vecs', contents - {u}, query,
          key, dist);
      AddBackDistance(index, vecs, i, query, key, dist);
    }
  }

  /** With the same vectors stored and a monotone metric, FAISS (whatever it answers among
      ties) and the full scan report the same sequence of distances. */
  lemma SearchesAgree(index: seq<(int, Vector)>, uuidToInt: map<Id, int>, intToUuid: map<int, Id>, next: int,
                      ids: seq<Id>, vecs: seq<Vector>, contents: map<Id, Vector>,
                      query: Vector, key: (Vector, Vector) -> real, dist: real -> real, t: real, topK: nat,
                      picked: seq<Hit>)
    requires Inverse(uuidToInt, intToUuid, next) && Represents(index, uuidToInt, intToUuid, contents)
    requires Lists(ids, vecs, contents) && MonotoneOn(dist, Hits(index, query, key))
    requires IsTopK(Hits(index, query, key), if topK <= |index| then topK else |index|, picked)
    ensures Take(SortReals(AtMost(MapDist(dist, Keys(picked)), t)), topK)
         == FilterThenTop(PlainHits(vecs, query, key), dist, t, topK)
  {
    var all := Hits(index, query, key);
    SearchDistances(all, if topK <= |index| then topK else |index|, topK, picked, dist, t);
    SameDistances(index, uuidToInt, intToUuid, next, ids, vecs, contents, query, key, dist);
    var di, dv := MapDist(dist, Keys(all)), MapDist(dist, Keys(PlainHits(vecs, query, key)));
    AtMostPermutes(di, dv, t);
    SortDependsOnMultiset(AtMost(di, t), AtMost(dv, t));
  }
}
