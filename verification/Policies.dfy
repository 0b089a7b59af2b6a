/** The three local eviction policies as values, and what their victim means in
    terms of the history of hits, inserts and deletes the policy has seen. */
module Policies {
  import opened Entries

  datatype Event = Hit(id: Id) | Insert(id: Id) | Delete(id: Id) | FlushAll

  datatype LfuEntry = LfuEntry(count: int, order: int)

  predicate Precedes(a: LfuEntry, b: LfuEntry) {
    a.count < b.count || (a.count == b.count && a.order < b.order)
  }

  /** `s` without `x`, everything else in place. */
  function Without(s: seq<Id>, x: Id): seq<Id> {
    if s == [] then []
    else if s[0] == x then Without(s[1..], x)
    else [s[0]] + Without(s[1..], x)
  }

  datatype Policy =
    | Lru(order: seq<Id>)                       // front is the most recently used
    | Fifo(order: seq<Id>)                      // front is the oldest
    | Lfu(entries: map<Id, LfuEntry>, next: int)
  {
    function Ids(): set<Id> {
      match this
      case Lru(order) => set id | id in order
      case Fifo(order) => set id | id in order
      case Lfu(entries, _) => entries.Keys
    }

    function OnHit(id: Id): Policy {
      match this
      case Lru(order) => if id in order then Lru([id] + Without(order, id)) else this
      case Fifo(_) => this
      case Lfu(entries, next) =>
        if id in entries then Lfu(entries[id := entries[id].(count := entries[id].count + 1)], next)
        else this
    }

    function OnInsert(id: Id): Policy {
      match this
      case Lru(order) => Lru([id] + Without(order, id))
      case Fifo(order) => if id in order then this else Fifo(order + [id])
      case Lfu(entries, next) =>
        if id in entries then this else Lfu(entries[id := LfuEntry(1, next)], next + 1)
    }

    function OnDelete(id: Id): Policy {
      match this
      case Lru(order) => Lru(Without(order, id))
      case Fifo(order) => Fifo(Without(order, id))
      case Lfu(entries, next) => Lfu(entries - {id}, next)
    }

    function Flush(): Policy {
      match this
      case Lru(_) => Lru([])
      case Fifo(_) => Fifo([])
      case Lfu(_, _) => Lfu(map[], 0)
    }

    function Apply(e: Event): Policy {
      match e
      case Hit(id) => OnHit(id)
      case Insert(id) => OnInsert(id)
      case Delete(id) => OnDelete(id)
      case FlushAll => Flush()
    }

    ghost predicate Valid() {
      match this
      case Lru(order) => NoDup(order)
      case Fifo(order) => NoDup(order)
      case Lfu(entries, next) =>
        && (forall a :: a in entries ==> entries[a].order < next)
        && (forall a, b :: a in entries && b in entries && a != b ==> entries[a].order != entries[b].order)
    }

    /** `v` would be chosen: the end of a list, or the least (count, order) pair. */
    ghost predicate IsVictim(v: Id) {
      match this
      case Lru(order) => order != [] && v == order[|order| - 1]
      case Fifo(order) => order != [] && v == order[0]
      case Lfu(entries, _) =>
        v in entries && forall u :: u in entries && u != v ==> Precedes(entries[v], entries[u])
    }

    ghost function Victim(): (r: Option<Id>)
      ensures r.Some? ==> IsVictim(r.value)
    {
      if v :| IsVictim(v) then Some(v) else None
    }
  }

  // ---- sequences without duplicates and pairwise relations -----------------------

  ghost predicate Pairwise(s: seq<Id>, rel: (Id, Id) -> bool) {
    forall i, j :: 0 <= i < j < |s| ==> rel(s[i], s[j])
  }

  ghost predicate NoDup(s: seq<Id>) {
    forall i, j :: 0 <= i < j < |s| ==> s[i] != s[j]
  }

  lemma {:induction false} WithoutMembers(s: seq<Id>, x: Id)
    ensures forall y :: y in Without(s, x) <==> y in s && y != x
    ensures x !in s ==> Without(s, x) == s
  {
    if s != [] {
      WithoutMembers(s[1..], x);
      assert s == [s[0]] + s[1..];
    }
  }

  lemma {:induction false} WithoutPairwise(s: seq<Id>, x: Id, rel: (Id, Id) -> bool)
    requires Pairwise(s, rel)
    ensures Pairwise(Without(s, x), rel)
  {
    if s != [] {
      WithoutPairwise(s[1..], x, rel);
      var t := Without(s[1..], x);
      forall j | 0 <= j < |t| ensures rel(s[0], t[j]) {
        WithoutMembers(s[1..], x);
        assert t[j] in s[1..];
      }
    }
  }

  lemma WithoutNoDup(s: seq<Id>, x: Id)
    requires NoDup(s)
    ensures NoDup(Without(s, x))
  {
    WithoutPairwise(s, x, (a, b) => a != b);
  }

  lemma {:induction false} WithoutAppend(s: seq<Id>, t: seq<Id>, x: Id)
    ensures Without(s + t, x) == Without(s, x) + Without(t, x)
  {
    if s == [] {
      assert s + t == t;
    } else {
      WithoutAppend(s[1..], t, x);
      assert (s + t)[1..] == s[1..] + t && (s + t)[0] == s[0];
    }
  }

  lemma {:induction false} WithoutLast(s: seq<Id>)
    requires NoDup(s) && s != []
    ensures Without(s, s[|s| - 1]) == s[..|s| - 1]
  {
    if |s| > 1 {
      WithoutLast(s[1..]);
      assert s[..|s| - 1] == [s[0]] + s[1..][..|s| - 2];
    }
  }

  lemma WithoutFirst(s: seq<Id>)
    requires NoDup(s) && s != []
    ensures Without(s, s[0]) == s[1..]
  {
    WithoutMembers(s[1..], s[0]);
  }

  // ---- what every hook keeps ------------------------------------------------------

  lemma HooksKeepValid(p: Policy, e: Event)
    requires p.Valid()
    ensures p.Apply(e).Valid()
    ensures p.Apply(e).Ids() == match e
                                case Hit(_) => p.Ids()
                                case Insert(id) => p.Ids() + {id}
                                case Delete(id) => p.Ids() - {id}
                                case FlushAll => {}
  {
    if !p.Lfu? && !e.FlushAll? {
      WithoutMembers(p.order, e.id);
      WithoutNoDup(p.order, e.id);
    }
  }

  lemma {:induction false} LeastExists(entries: map<Id, LfuEntry>) returns (v: Id)
    requires entries != map[]
    requires forall a, b :: a in entries && b in entries && a != b ==> entries[a].order != entries[b].order
    ensures v in entries
    ensures forall u :: u in entries && u != v ==> Precedes(entries[v], entries[u])
    decreases |entries|
  {
    var a :| a in entries;
    var rest := entries - {a};
    if rest == map[] {
      v := a;
      assert forall u :: u in entries && u != a ==> u in rest;
    } else {
      assert entries.Keys == rest.Keys + {a};
      assert |entries| == |entries.Keys| && |rest| == |rest.Keys|;
      var w := LeastExists(rest);
      v := if Precedes(entries[w], entries[a]) then w else a;
      forall u | u in entries && u != v ensures Precedes(entries[v], entries[u]) {
        if u != a && u != w { assert u in rest; }
      }
    }
  }

  /** A victim exists exactly when some id is live, it is unique, and it is live. */
  lemma VictimCharacterized(p: Policy)
    requires p.Valid()
    ensures p.Victim().Some? <==> p.Ids() != {}
    ensures forall v :: p.IsVictim(v) ==> p.Victim() == Some(v) && v in p.Ids()
  {
    if p.Ids() != {} {
      var w :| w in p.Ids();
      match p {
        case Lru(order) => assert p.IsVictim(order[|order| - 1]);
        case Fifo(order) => assert p.IsVictim(order[0]);
        case Lfu(entries, _) =>
          var v := LeastExists(entries);
          assert p.IsVictim(v);
      }
    }
    forall v, u | p.IsVictim(v) && p.IsVictim(u) ensures u == v && v in p.Ids() {}
  }

  /** A policy that tracks anything names a tracked id, and deleting it removes just it. */
  lemma NextVictim(p: Policy) returns (v: Id)
    requires p.Valid() && p.Ids() != {}
    ensures p.Victim() == Some(v) && v in p.Ids()
    ensures p.OnDelete(v).Valid() && p.OnDelete(v).Ids() == p.Ids() - {v}
  {
    VictimCharacterized(p);
    v := p.Victim().value;
    HooksKeepValid(p, Delete(v));
  }

  // ---- histories --------------------------------------------------------------------

  function Run(p: Policy, h: seq<Event>): Policy {
    if h == [] then p else Run(p, h[..|h| - 1]).Apply(h[|h| - 1])
  }

  /** Ids inserted and not deleted or flushed since. */
  ghost function Live(h: seq<Event>): set<Id> {
    if h == [] then {}
    else
      var before := Live(h[..|h| - 1]);
      match h[|h| - 1]
      case Hit(_) => before
      case Insert(id) => before + {id}
      case Delete(id) => before - {id}
      case FlushAll => {}
  }

  /** Position of the last hit or insert of `id`, or -1. */
  ghost function LastTouch(h: seq<Event>, id: Id): int {
    if h == [] then -1
    else if h[|h| - 1] == Hit(id) || h[|h| - 1] == Insert(id) then |h| - 1
    else LastTouch(h[..|h| - 1], id)
  }

  /** Position of the insert that made `id` live, or -1. */
  ghost function InsertedAt(h: seq<Event>, id: Id): int {
    if h == [] then -1
    else if h[|h| - 1] == Insert(id) && id !in Live(h[..|h| - 1]) then |h| - 1
    else InsertedAt(h[..|h| - 1], id)
  }

  /** Number of hits on `id` since the insert that made it live. */
  ghost function Hits(h: seq<Event>, id: Id): nat {
    if h == [] then 0
    else if h[|h| - 1] == Insert(id) && id !in Live(h[..|h| - 1]) then 0
    else Hits(h[..|h| - 1], id) + if h[|h| - 1] == Hit(id) then 1 else 0
  }

  lemma {:induction false} HistoryBounds(h: seq<Event>, id: Id)
    ensures LastTouch(h, id) < |h| && InsertedAt(h, id) < |h|
    ensures id in Live(h) ==> 0 <= InsertedAt(h, id) <= LastTouch(h, id)
  {
    if h != [] { HistoryBounds(h[..|h| - 1], id); }
  }

  /** LRU keeps exactly the live ids, most recently touched first. */
  lemma {:induction false} LruOrder(h: seq<Event>)
    ensures Run(Lru([]), h).Lru? && Run(Lru([]), h).Valid() && Run(Lru([]), h).Ids() == Live(h)
    ensures Pairwise(Run(Lru([]), h).order, (a, b) => LastTouch(h, a) > LastTouch(h, b))
  {
    if h != [] {
      var g, e := h[..|h| - 1], h[|h| - 1];
      LruOrder(g);
      var p := Run(Lru([]), g);
      HooksKeepValid(p, e);
      if !e.FlushAll? {
        var o := Without(p.order, e.id);
        WithoutMembers(p.order, e.id);
        WithoutPairwise(p.order, e.id, (a, b) => LastTouch(g, a) > LastTouch(g, b));
        forall i, j | 0 <= i < j < |o| ensures LastTouch(h, o[i]) > LastTouch(h, o[j]) {
          assert o[i] in o && o[j] in o;
        }
        forall j | 0 <= j < |o| ensures LastTouch(h, o[j]) < |g| {
          assert o[j] in o;
          HistoryBounds(g, o[j]);
        }
      }
    }
  }

  lemma LruLast(h: seq<Event>) returns (w: Id)
    requires Live(h) != {}
    ensures Run(Lru([]), h).Victim() == Some(w) && w in Live(h)
    ensures forall u :: u in Live(h) && u != w ==> LastTouch(h, w) < LastTouch(h, u)
  {
    LruOrder(h);
    var p := Run(Lru([]), h);
    VictimCharacterized(p);
    var o := p.order;
    var k := |o| - 1;
    w := o[k];
    assert p.IsVictim(w) && w in p.Ids();
    forall u | u in Live(h) && u != w ensures LastTouch(h, w) < LastTouch(h, u) {
      assert u in p.Ids() && u in o;
      var i :| 0 <= i < |o| && o[i] == u;
      assert i < k;
    }
  }

  /** LRU evicts the live id touched longest ago. */
  lemma LruVictimIsLeastRecentlyTouched(h: seq<Event>, v: Id)
    ensures Run(Lru([]), h).Victim() == Some(v) <==>
            v in Live(h) && forall u :: u in Live(h) && u != v ==> LastTouch(h, v) < LastTouch(h, u)
  {
    if Live(h) == {} {
      LruOrder(h);
      VictimCharacterized(Run(Lru([]), h));
    } else {
      var w := LruLast(h);
      assert v != w && v in Live(h) ==> LastTouch(h, w) < LastTouch(h, v);
    }
  }

  /** FIFO keeps exactly the live ids in the order they became live. */
  lemma {:induction false} FifoOrder(h: seq<Event>)
    ensures Run(Fifo([]), h).Fifo? && Run(Fifo([]), h).Valid() && Run(Fifo([]), h).Ids() == Live(h)
    ensures Pairwise(Run(Fifo([]), h).order, (a, b) => InsertedAt(h, a) < InsertedAt(h, b))
  {
    if h != [] {
      var g, e := h[..|h| - 1], h[|h| - 1];
      FifoOrder(g);
      var p := Run(Fifo([]), g);
      HooksKeepValid(p, e);
      if e.Delete? {
        WithoutMembers(p.order, e.id);
        WithoutPairwise(p.order, e.id, (a, b) => InsertedAt(g, a) < InsertedAt(g, b));
      } else if e.Insert? {
        forall j | 0 <= j < |p.order| ensures p.order[j] in Live(g) && InsertedAt(g, p.order[j]) < |g| {
          HistoryBounds(g, p.order[j]);
        }
      }
    }
  }

  /** FIFO evicts the live id that became live first; hits change nothing. */
  lemma FifoVictimIsOldest(h: seq<Event>, v: Id)
    ensures Run(Fifo([]), h).Victim() == Some(v) <==>
            v in Live(h) && forall u :: u in Live(h) && u != v ==> InsertedAt(h, v) < InsertedAt(h, u)
  {
    FifoOrder(h);
    var p := Run(Fifo([]), h);
    VictimCharacterized(p);
    if p.order != [] {
      var w := p.order[0];
      assert p.IsVictim(w);
      forall u | u in Live(h) && u != w ensures InsertedAt(h, w) < InsertedAt(h, u) {
        assert u in p.order;
      }
    } else {
      assert Live(h) == {};
    }
  }

  /** One event's effect on the order numbers. */
  lemma LfuRanks(p: Policy, g: seq<Event>, e: Event)
    requires p.Lfu? && p.Valid() && p.Ids() == Live(g)
    requires forall a, b :: a in p.entries && b in p.entries ==>
               (p.entries[a].order < p.entries[b].order <==> InsertedAt(g, a) < InsertedAt(g, b))
    ensures var m, h := p.Apply(e).entries, g + [e];
            forall a, b :: a in m && b in m ==> (m[a].order < m[b].order <==> InsertedAt(h, a) < InsertedAt(h, b))
  {
    var m, h := p.Apply(e).entries, g + [e];
    forall a, b | a in m && b in m ensures m[a].order < m[b].order <==> InsertedAt(h, a) < InsertedAt(h, b) {
      InsertedAtStep(g, e, a);
      InsertedAtStep(g, e, b);
      LfuOrderStep(p, e, a);
      LfuOrderStep(p, e, b);
    }
  }

  lemma InsertedAtStep(g: seq<Event>, e: Event, id: Id)
    ensures InsertedAt(g + [e], id) == if e == Insert(id) && id !in Live(g) then |g| else InsertedAt(g, id)
    ensures InsertedAt(g, id) < |g|
  {
    assert (g + [e])[..|g|] == g;
    HistoryBounds(g, id);
  }

  lemma LfuOrderStep(p: Policy, e: Event, id: Id)
    requires p.Lfu? && p.Valid() && id in p.Apply(e).entries
    ensures if e == Insert(id) && id !in p.entries then p.Apply(e).entries[id].order == p.next
            else id in p.entries && p.Apply(e).entries[id].order == p.entries[id].order < p.next
  {}

  /** One event's effect on the counters. */
  lemma LfuCounts(p: Policy, g: seq<Event>, e: Event)
    requires p.Lfu? && p.Ids() == Live(g) && forall a :: a in p.entries ==> p.entries[a].count == 1 + Hits(g, a)
    ensures var m, h := p.Apply(e).entries, g + [e];
            forall a :: a in m ==> m[a].count == 1 + Hits(h, a)
  {
    var m, h := p.Apply(e).entries, g + [e];
    assert h[..|h| - 1] == g;
    forall a | a in m ensures m[a].count == 1 + Hits(h, a) {
      assert a in p.entries <==> a in Live(g);
    }
  }

  /** LFU's counters are the hits since insertion plus one, and its order numbers
      rank the live ids by when they became live. */
  lemma {:induction false} LfuCounters(h: seq<Event>)
    ensures Run(Lfu(map[], 0), h).Lfu? && Run(Lfu(map[], 0), h).Valid() && Run(Lfu(map[], 0), h).Ids() == Live(h)
    ensures var m := Run(Lfu(map[], 0), h).entries;
            && (forall a :: a in m ==> m[a].count == 1 + Hits(h, a))
            && (forall a, b :: a in m && b in m ==>
                  (m[a].order < m[b].order <==> InsertedAt(h, a) < InsertedAt(h, b)))
  {
    if h != [] {
      var g, e := h[..|h| - 1], h[|h| - 1];
      LfuCounters(g);
      var p := Run(Lfu(map[], 0), g);
      HooksKeepValid(p, e);
      assert g + [e] == h;
      LfuRanks(p, g, e);
      LfuCounts(p, g, e);
    }
  }

  /** LFU evicts the live id with the fewest hits, the oldest of them on a tie. */
  lemma LfuVictimIsLeastFrequentlyHit(h: seq<Event>, v: Id)
    ensures Run(Lfu(map[], 0), h).Victim() == Some(v) <==>
            v in Live(h) && forall u :: u in Live(h) && u != v ==>
              Hits(h, v) < Hits(h, u) || (Hits(h, v) == Hits(h, u) && InsertedAt(h, v) < InsertedAt(h, u))
  {
    LfuCounters(h);
    var p := Run(Lfu(map[], 0), h);
    VictimCharacterized(p);
    if p.Victim() == Some(v) {
      assert p.IsVictim(v);
    }
    if v in Live(h) && forall u :: u in Live(h) && u != v ==>
        Hits(h, v) < Hits(h, u) || (Hits(h, v) == Hits(h, u) && InsertedAt(h, v) < InsertedAt(h, u)) {
      assert p.IsVictim(v);
    }
  }

  // ---- draining and replay -------------------------------------------------------------

  /** The ids in the order repeated Victim and OnDelete would remove them. */
  ghost function Drain(p: Policy): seq<Id>
    requires p.Valid()
    decreases |p.Ids()|
  {
    VictimCharacterized(p);
    match p.Victim()
    case None => []
    case Some(v) =>
      HooksKeepValid(p, Delete(v));
      [v] + Drain(p.OnDelete(v))
  }

  lemma {:induction false} DrainListsIds(p: Policy)
    requires p.Valid()
    ensures NoDup(Drain(p)) && forall id :: id in Drain(p) <==> id in p.Ids()
    decreases |p.Ids()|
  {
    VictimCharacterized(p);
    if p.Victim().Some? {
      var v := p.Victim().value;
      HooksKeepValid(p, Delete(v));
      DrainListsIds(p.OnDelete(v));
      assert v !in Drain(p.OnDelete(v));
      NoDupCons(v, Drain(p.OnDelete(v)));
    }
  }

  lemma NoDupCons(v: Id, rest: seq<Id>)
    requires NoDup(rest) && v !in rest
    ensures NoDup([v] + rest) && forall id :: id in [v] + rest <==> id == v || id in rest
  {}

  lemma {:induction false} DrainFifo(order: seq<Id>)
    requires NoDup(order)
    ensures Drain(Fifo(order)) == order
    decreases |order|
  {
    var p := Fifo(order);
    VictimCharacterized(p);
    if order != [] {
      assert p.IsVictim(order[0]);
      WithoutFirst(order);
      DrainFifo(order[1..]);
    }
  }

  function Reverse(s: seq<Id>): (r: seq<Id>)
    ensures |r| == |s| && forall i :: 0 <= i < |s| ==> r[i] == s[|s| - 1 - i]
  {
    seq(|s|, i requires 0 <= i < |s| => s[|s| - 1 - i])
  }

  lemma {:induction false} DrainLru(order: seq<Id>)
    requires NoDup(order)
    ensures Drain(Lru(order)) == Reverse(order)
    decreases |order|
  {
    var p := Lru(order);
    VictimCharacterized(p);
    if order != [] {
      var k := |order| - 1;
      assert p.IsVictim(order[k]);
      WithoutLast(order);
      assert p.Victim() == Some(order[k]) && p.OnDelete(order[k]) == Lru(order[..k]);
      DrainLru(order[..k]);
      assert Reverse(order) == [order[k]] + Reverse(order[..k]);
    }
  }

  /** An LFU policy holding exactly `ids`, ranked in that order. */
  ghost predicate Ranks(p: Policy, ids: seq<Id>) {
    && p.Lfu? && NoDup(ids)
    && (forall id :: id in ids <==> id in p.entries)
    && forall i, j :: 0 <= i < j < |ids| ==> Precedes(p.entries[ids[i]], p.entries[ids[j]])
  }

  lemma RankedVictim(p: Policy, ids: seq<Id>)
    requires p.Valid() && Ranks(p, ids) && ids != []
    ensures p.Victim() == Some(ids[0])
    ensures Ranks(p.OnDelete(ids[0]), ids[1..])
  {
    VictimCharacterized(p);
    var m, v := p.entries, ids[0];
    assert v in ids && p.IsVictim(v) by {
      forall u | u in m && u != v ensures Precedes(m[v], m[u]) {
        assert u in ids;
        var i :| 0 <= i < |ids| && ids[i] == u;
      }
    }
    RanksTail(p, ids);
  }

  lemma RanksTail(p: Policy, ids: seq<Id>)
    requires Ranks(p, ids) && ids != []
    ensures Ranks(p.OnDelete(ids[0]), ids[1..])
  {
    var v := ids[0];
    var m' := p.OnDelete(v).entries;
    forall id ensures id in ids[1..] <==> id in m' {
      assert id in ids <==> id == v || id in ids[1..] by { assert ids == [v] + ids[1..]; }
    }
    assert forall i, j :: 0 <= i < j < |ids[1..]| ==> Precedes(m'[ids[1..][i]], m'[ids[1..][j]]) by {
      forall i, j | 0 <= i < j < |ids[1..]| ensures Precedes(m'[ids[1..][i]], m'[ids[1..][j]]) {
        assert ids[1..][i] == ids[i + 1] && ids[1..][j] == ids[j + 1];
        assert ids[1..][i] in ids[1..] && ids[1..][j] in ids[1..];
      }
    }
  }

  lemma {:induction false} DrainRanked(p: Policy, ids: seq<Id>)
    requires p.Valid() && Ranks(p, ids)
    ensures Drain(p) == ids
    decreases |ids|
  {
    VictimCharacterized(p);
    if ids == [] {
      assert p.Ids() == {};
    } else {
      RankedVictim(p, ids);
      HooksKeepValid(p, Delete(ids[0]));
      DrainRanked(p.OnDelete(ids[0]), ids[1..]);
    }
  }

  function InsertAll(p: Policy, ids: seq<Id>): Policy {
    if ids == [] then p else InsertAll(p, ids[..|ids| - 1]).OnInsert(ids[|ids| - 1])
  }

  lemma InsertAllStep(p: Policy, l: seq<Entry>, i: nat)
    requires i < |l|
    ensures InsertAll(p, IdsOf(l[..i + 1])) == InsertAll(p, IdsOf(l[..i])).OnInsert(l[i].id)
  {
    var ids := IdsOf(l[..i + 1]);
    assert ids[..i] == IdsOf(l[..i]) && ids[i] == l[i].id;
  }

  lemma {:induction false} InsertAllIds(p: Policy, ids: seq<Id>)
    requires p.Valid()
    ensures InsertAll(p, ids).Valid() && InsertAll(p, ids).Ids() == p.Ids() + set id | id in ids
  {
    if ids != [] {
      var k := |ids| - 1;
      InsertAllIds(p, ids[..k]);
      HooksKeepValid(InsertAll(p, ids[..k]), Insert(ids[k]));
      OneMoreId(ids, k);
    }
  }

  lemma OneMoreId(ids: seq<Id>, k: nat)
    requires |ids| == k + 1
    ensures (set id | id in ids) == (set id | id in ids[..k]) + {ids[k]}
  {
    assert ids == ids[..k] + [ids[k]];
  }

  lemma {:induction false} ReplayLru(ids: seq<Id>)
    requires NoDup(ids)
    ensures InsertAll(Lru([]), ids) == Lru(Reverse(ids))
  {
    if ids == [] {
      assert Reverse(ids) == [];
    } else {
      var k := |ids| - 1;
      ReplayLru(ids[..k]);
      NewToFront(ids, k);
    }
  }

  lemma NewToFront(ids: seq<Id>, k: nat)
    requires NoDup(ids) && |ids| == k + 1
    ensures Lru(Reverse(ids[..k])).OnInsert(ids[k]) == Lru(Reverse(ids))
  {
    NotBefore(ids, k);
    WithoutMembers(Reverse(ids[..k]), ids[k]);
    LastFirst(ids, k);
  }

  lemma LastFirst(ids: seq<Id>, k: nat)
    requires |ids| == k + 1
    ensures Reverse(ids) == [ids[k]] + Reverse(ids[..k])
  {}

  lemma NotBefore(ids: seq<Id>, k: nat)
    requires NoDup(ids) && |ids| == k + 1
    ensures ids[k] !in Reverse(ids[..k])
  {}

  lemma {:induction false} ReplayFifo(ids: seq<Id>)
    requires NoDup(ids)
    ensures InsertAll(Fifo([]), ids) == Fifo(ids)
  {
    if ids != [] {
      var k := |ids| - 1;
      ReplayFifo(ids[..k]);
      assert ids == ids[..k] + [ids[k]];
    }
  }

  /** Each id gets a count of one and its position as order number. */
  lemma {:induction false} ReplayLfu(ids: seq<Id>)
    requires NoDup(ids)
    ensures var q := InsertAll(Lfu(map[], 0), ids);
            && q.Lfu? && q.next == |ids| && (forall id :: id in q.entries <==> id in ids)
            && forall i :: 0 <= i < |ids| ==> q.entries[ids[i]] == LfuEntry(1, i)
  {
    if ids != [] {
      var k := |ids| - 1;
      ReplayLfu(ids[..k]);
      assert ids == ids[..k] + [ids[k]];
      assert ids[k] !in ids[..k];
      forall i | 0 <= i < k ensures ids[..k][i] == ids[i] && ids[i] in ids[..k] {}
    }
  }

  /** After a flush and a replay of distinct ids, all three policies evict in
      exactly the replayed order. */
  lemma ReplayDrainsInOrder(p: Policy, ids: seq<Id>)
    requires NoDup(ids)
    ensures InsertAll(p.Flush(), ids).Valid()
    ensures Drain(InsertAll(p.Flush(), ids)) == ids
  {
    InsertAllIds(p.Flush(), ids);
    match p {
      case Lru(_) =>
        ReplayLru(ids);
        DrainLru(Reverse(ids));
        assert Reverse(Reverse(ids)) == ids;
      case Fifo(_) =>
        ReplayFifo(ids);
        DrainFifo(ids);
      case Lfu(_, _) =>
        ReplayLfu(ids);
        DrainRanked(InsertAll(p.Flush(), ids), ids);
    }
  }

  lemma DistinctIdsNoDup(l: seq<Entry>)
    requires DistinctIds(l)
    ensures NoDup(IdsOf(l))
  {}

  /** Replaying the sorted entries of a store makes a policy evict all its ids in the order of
      their creation times and, among equals, of the ids: the same for every order in which
      the store may list them. */
  lemma SortedReplayDrainsInCreationOrder(p: Policy, store: map<Id, Entry>, l: seq<Entry>, l': seq<Entry>)
    requires IsListing(l, store) && IsListing(l', store)
    ensures var q := InsertAll(p.Flush(), IdsOf(SortEntries(l)));
            && q.Valid() && Drain(q) == IdsOf(SortEntries(l')) && InCreationOrder(Drain(q), store)
    ensures forall id :: id in store && store[id].id == id ==> id in IdsOf(SortEntries(l'))
  {
    SortedListingUnique(l, l', store);
    var sorted := SortEntries(l');
    SortSorts(l');
    SortedIsCreationOrder(sorted, store);
    DistinctIdsNoDup(sorted);
    ReplayDrainsInOrder(p, IdsOf(sorted));
    forall id | id in store && store[id].id == id ensures id in IdsOf(sorted) {
      assert store[id] in sorted;
      var k :| 0 <= k < |sorted| && sorted[k] == store[id];
      assert IdsOf(sorted)[k] == id;
    }
  }
}
