/** The policies as the program keeps them: a linked list of elements with a map from
    id to element (LRU, FIFO), and a map scanned for its minimum (LFU). Each hook is
    proved equal to the corresponding step of module Policies. */
module PolicyObjects {
  import opened Entries
  import opened Policies

  /** A node of container/list: `handle` stands for the node's address. */
  datatype Element = Element(handle: nat, value: Id)

  function Values(l: seq<Element>): (r: seq<Id>)
    ensures |r| == |l| && forall i :: 0 <= i < |l| ==> r[i] == l[i].value
  {
    seq(|l|, i requires 0 <= i < |l| => l[i].value)
  }

  /** Unlink the node at `handle`. */
  function Unlink(l: seq<Element>, handle: nat): seq<Element> {
    if l == [] then []
    else if l[0].handle == handle then Unlink(l[1..], handle)
    else [l[0]] + Unlink(l[1..], handle)
  }

  /** The list and the map describe each other. */
  ghost predicate Agree(l: seq<Element>, items: map<Id, nat>) {
    && (forall i :: 0 <= i < |l| ==> l[i].value in items && items[l[i].value] == l[i].handle)
    && (forall id :: id in items ==> Element(items[id], id) in l)
    && DistinctHandles(l)
  }

  ghost predicate DistinctHandles(l: seq<Element>) {
    forall i, j :: 0 <= i < j < |l| ==> l[i].handle != l[j].handle
  }

  lemma {:induction false} UnlinkIsWithout(l: seq<Element>, handle: nat, id: Id)
    requires forall i :: 0 <= i < |l| ==> (l[i].handle == handle <==> l[i].value == id)
    ensures Values(Unlink(l, handle)) == Without(Values(l), id)
    ensures forall e :: e in Unlink(l, handle) <==> e in l && e.handle != handle
  {
    if l != [] {
      UnlinkIsWithout(l[1..], handle, id);
      assert Values(l)[1..] == Values(l[1..]);
      assert l == [l[0]] + l[1..];
    }
  }

  lemma {:induction false} UnlinkKeepsDistinct(l: seq<Element>, handle: nat)
    requires DistinctHandles(l)
    ensures DistinctHandles(Unlink(l, handle))
    ensures forall e :: e in Unlink(l, handle) ==> e in l
  {
    if l != [] {
      UnlinkKeepsDistinct(l[1..], handle);
      var t := Unlink(l[1..], handle);
      forall j | 0 <= j < |t| ensures t[j].handle != l[0].handle {
        assert t[j] in l[1..];
      }
    }
  }

  /** What unlinking the node of a known id leaves behind. */
  lemma UnlinkAgrees(l: seq<Element>, items: map<Id, nat>, id: Id)
    requires Agree(l, items) && id in items
    ensures Agree(Unlink(l, items[id]), items - {id})
    ensures Values(Unlink(l, items[id])) == Without(Values(l), id)
    ensures forall e :: e in Unlink(l, items[id]) ==> e in l && e.handle != items[id]
  {
    var h := items[id];
    forall i | 0 <= i < |l| ensures l[i].handle == h <==> l[i].value == id {
      var k :| 0 <= k < |l| && l[k] == Element(h, id);
    }
    UnlinkIsWithout(l, h, id);
    UnlinkKeepsDistinct(l, h);
    var r := Unlink(l, h);
    forall i | 0 <= i < |r| ensures r[i].value in items - {id} && (items - {id})[r[i].value] == r[i].handle {
      assert r[i] in r;
    }
    forall u | u in items - {id} ensures Element((items - {id})[u], u) in r {
      var k :| 0 <= k < |l| && l[k] == Element(items[u], u);
    }
  }

  lemma PushAgrees(e: Element, l: seq<Element>, items: map<Id, nat>)
    requires Agree(l, items) && e.value !in items
    requires forall x :: x in l ==> x.handle != e.handle
    ensures Agree([e] + l, items[e.value := e.handle])
    ensures Values([e] + l) == [e.value] + Values(l)
  {
    var r, m := [e] + l, items[e.value := e.handle];
    forall i | 0 <= i < |r| ensures r[i].value in m && m[r[i].value] == r[i].handle {
      assert i > 0 ==> r[i] == l[i - 1];
    }
    forall i, j | 0 <= i < j < |r| ensures r[i].handle != r[j].handle {
      assert r[j] == l[j - 1] && l[j - 1] in l;
    }
  }

  lemma AgreeMembers(l: seq<Element>, items: map<Id, nat>)
    requires Agree(l, items)
    ensures forall id :: id in items <==> id in Values(l)
    ensures NoDup(Values(l))
  {
    forall id | id in items ensures id in Values(l) {
      var k :| 0 <= k < |l| && l[k] == Element(items[id], id);
      assert Values(l)[k] == id;
    }
  }

  class LruPolicy {
    var order: seq<Element>
    var items: map<Id, nat>
    var nextHandle: nat

    ghost predicate Valid()
      reads this
    {
      Agree(order, items) && forall e :: e in order ==> e.handle < nextHandle
    }

    ghost function Model(): Policy
      reads this
    {
      Lru(Values(order))
    }

    constructor ()
      ensures Valid() && Model() == Lru([])
    {
      order, items, nextHandle := [], map[], 0;
    }

    method OnHit(id: Id)
      requires Valid()
      modifies this
      ensures Valid() && Model() == old(Model()).OnHit(id)
    {
      AgreeMembers(order, items);
      if id in items {
        MoveToFront(id);
      }
    }

    method OnInsert(id: Id)
      requires Valid()
      modifies this
      ensures Valid() && Model() == old(Model()).OnInsert(id)
    {
      AgreeMembers(order, items);
      if id in items {
        MoveToFront(id);
        return;
      }
      WithoutMembers(Values(order), id);
      var element := Element(nextHandle, id);
      PushAgrees(element, order, items);
      order := [element] + order;
      items := items[id := nextHandle];
      nextHandle := nextHandle + 1;
    }

    method OnDelete(id: Id)
      requires Valid()
      modifies this
      ensures Valid() && Model() == old(Model()).OnDelete(id)
    {
      AgreeMembers(order, items);
      if id in items {
        UnlinkAgrees(order, items, id);
        order := Unlink(order, items[id]);
        items := items - {id};
      } else {
        WithoutMembers(Values(order), id);
      }
    }

    method Victim() returns (id: Id, ok: bool)
      requires Valid()
      ensures Model().Victim() == if ok then Some(id) else None
    {
      AgreeMembers(order, items);
      VictimCharacterized(Model());
      if order == [] {
        id, ok := "", false;
        assert Model().Ids() == {};
      } else {
        id, ok := order[|order| - 1].value, true;
        assert Model().IsVictim(id);
      }
    }

    method Flush()
      requires Valid()
      modifies this
      ensures Valid() && Model() == old(Model()).Flush()
    {
      order, items := [], map[];
    }

    /** list.MoveToFront on the element the map holds for `id`. */
    method MoveToFront(id: Id)
      requires Valid() && id in items
      modifies `order
      ensures Valid() && Values(order) == [id] + Without(old(Values(order)), id)
    {
      UnlinkAgrees(order, items, id);
      var rest := Unlink(order, items[id]);
      PushAgrees(Element(items[id], id), rest, items - {id});
      assert (items - {id})[id := items[id]] == items;
      assert Element(items[id], id) in order;
      order := [Element(items[id], id)] + rest;
    }
  }

  class FifoPolicy {
    var order: seq<Element>
    var items: map<Id, nat>
    var nextHandle: nat

    ghost predicate Valid()
      reads this
    {
      Agree(order, items) && forall e :: e in order ==> e.handle < nextHandle
    }

    ghost function Model(): Policy
      reads this
    {
      Fifo(Values(order))
    }

    constructor ()
      ensures Valid() && Model() == Fifo([])
    {
      order, items, nextHandle := [], map[], 0;
    }

    method OnHit(id: Id)
      requires Valid()
      ensures Valid() && Model() == Model().OnHit(id)
    {
    }

    method OnInsert(id: Id)
      requires Valid()
      modifies this
      ensures Valid() && Model() == old(Model()).OnInsert(id)
    {
      AgreeMembers(order, items);
      if id in items {
        return;
      }
      order := order + [Element(nextHandle, id)];
      items := items[id := nextHandle];
      nextHandle := nextHandle + 1;
      assert Values(order) == old(Values(order)) + [id];
    }

    method OnDelete(id: Id)
      requires Valid()
      modifies this
      ensures Valid() && Model() == old(Model()).OnDelete(id)
    {
      AgreeMembers(order, items);
      if id in items {
        UnlinkAgrees(order, items, id);
        order := Unlink(order, items[id]);
        items := items - {id};
      } else {
        WithoutMembers(Values(order), id);
      }
    }

    method Victim() returns (id: Id, ok: bool)
      requires Valid()
      ensures Model().Victim() == if ok then Some(id) else None
    {
      AgreeMembers(order, items);
      VictimCharacterized(Model());
      if order == [] {
        id, ok := "", false;
        assert Model().Ids() == {};
      } else {
        id, ok := order[0].value, true;
        assert Model().IsVictim(id);
      }
    }

    method Flush()
      requires Valid()
      modifies this
      ensures Valid() && Model() == old(Model()).Flush()
    {
      order, items := [], map[];
    }
  }

  class LfuPolicy {
    var entries: map<Id, LfuEntry>
    var next: int

    ghost predicate Valid()
      reads this
    {
      Model().Valid()
    }

    ghost function Model(): Policy
      reads this
    {
      Lfu(entries, next)
    }

    constructor ()
      ensures Valid() && Model() == Lfu(map[], 0)
    {
      entries, next := map[], 0;
    }

    method OnHit(id: Id)
      requires Valid()
      modifies this
      ensures Valid() && Model() == old(Model()).OnHit(id)
    {
      HooksKeepValid(Model(), Hit(id));
      if id !in entries {
        return;
      }
      var entry := entries[id];
      entry := entry.(count := entry.count + 1);
      entries := entries[id := entry];
    }

    method OnInsert(id: Id)
      requires Valid()
      modifies this
      ensures Valid() && Model() == old(Model()).OnInsert(id)
    {
      HooksKeepValid(Model(), Insert(id));
      if id in entries {
        return;
      }
      entries := entries[id := LfuEntry(1, next)];
      next := next + 1;
    }

    method OnDelete(id: Id)
      requires Valid()
      modifies this
      ensures Valid() && Model() == old(Model()).OnDelete(id)
    {
      HooksKeepValid(Model(), Delete(id));
      entries := entries - {id};
    }

    /** The scan visits the map in an arbitrary order; the answer does not depend on it. */
    method Victim() returns (victimId: Id, found: bool)
      requires Valid()
      ensures Model().Victim() == if found then Some(victimId) else None
    {
      var victim := LfuEntry(0, 0);
      victimId, found := "", false;
      var todo := entries.Keys;
      while todo != {}
        invariant todo <= entries.Keys
        invariant !found ==> todo == entries.Keys
        invariant found ==> victimId in entries && victimId !in todo && victim == entries[victimId]
        invariant found ==> forall u :: u in entries && u !in todo && u != victimId ==> Precedes(victim, entries[u])
        decreases |todo|
      {
        var id :| id in todo;
        todo := todo - {id};
        var entry := entries[id];
        if !found || entry.count < victim.count || (entry.count == victim.count && entry.order < victim.order) {
          victimId, victim, found := id, entry, true;
        }
      }
      VictimCharacterized(Model());
      if found {
        assert Model().IsVictim(victimId);
      } else {
        assert Model().Ids() == {};
      }
    }

    method Flush()
      requires Valid()
      modifies this
      ensures Valid() && Model() == old(Model()).Flush()
    {
      entries, next := map[], 0;
    }
  }

  /** The policy behind the cache: whichever implementation is selected. */
  datatype ActivePolicy = UseLru(lru: LruPolicy) | UseFifo(fifo: FifoPolicy) | UseLfu(lfu: LfuPolicy)
  {
    ghost function Object(): object {
      match this
      case UseLru(p) => p
      case UseFifo(p) => p
      case UseLfu(p) => p
    }

    ghost predicate Valid()
      reads Object()
    {
      match this
      case UseLru(p) => p.Valid()
      case UseFifo(p) => p.Valid()
      case UseLfu(p) => p.Valid()
    }

    ghost function Model(): Policy
      reads Object()
    {
      match this
      case UseLru(p) => p.Model()
      case UseFifo(p) => p.Model()
      case UseLfu(p) => p.Model()
    }

    lemma ModelValid()
      requires Valid()
      ensures Model().Valid()
    {
      match this {
        case UseLru(p) => AgreeMembers(p.order, p.items);
        case UseFifo(p) => AgreeMembers(p.order, p.items);
        case UseLfu(_) =>
      }
    }

    method OnHit(id: Id)
      requires Valid()
      modifies Object()
      ensures Valid() && Model() == old(Model()).OnHit(id)
    {
      match this {
        case UseLru(p) => p.OnHit(id);
        case UseFifo(p) => p.OnHit(id);
        case UseLfu(p) => p.OnHit(id);
      }
    }

    method OnInsert(id: Id)
      requires Valid()
      modifies Object()
      ensures Valid() && Model() == old(Model()).OnInsert(id)
    {
      match this {
        case UseLru(p) => p.OnInsert(id);
        case UseFifo(p) => p.OnInsert(id);
        case UseLfu(p) => p.OnInsert(id);
      }
    }

    method OnDelete(id: Id)
      requires Valid()
      modifies Object()
      ensures Valid() && Model() == old(Model()).OnDelete(id)
    {
      match this {
        case UseLru(p) => p.OnDelete(id);
        case UseFifo(p) => p.OnDelete(id);
        case UseLfu(p) => p.OnDelete(id);
      }
    }

    method Victim() returns (id: Id, ok: bool)
      requires Valid()
      ensures Model().Victim() == if ok then Some(id) else None
    {
      match this {
        case UseLru(p) => id, ok := p.Victim();
        case UseFifo(p) => id, ok := p.Victim();
        case UseLfu(p) => id, ok := p.Victim();
      }
    }

    method Flush()
      requires Valid()
      modifies Object()
      ensures Valid() && Model() == old(Model()).Flush()
    {
      match this {
        case UseLru(p) => p.Flush();
        case UseFifo(p) => p.Flush();
        case UseLfu(p) => p.Flush();
      }
    }
  }
}
