/** Listing a remote store page by page: the client's loop against any server, and against
    the example server, which sorts its map anew for every page and slices it by offset. */
module Paging {
  import opened Entries

  const PAGE_LIMIT := 500
  const MAX_PAGES := 100_000

  datatype Reply = Failure | Page(entries: seq<Entry>, nextCursor: string)

  datatype Result = Ok(entries: seq<Entry>) | BackendError | InvalidData

  /** The id rule of the protocol and finite vector components. */
  predicate ValidEntry(e: Entry) {
    ValidId(e.id) && forall i :: 0 <= i < |e.vector| ==> e.vector[i].Finite?
  }

  // ---- the client --------------------------------------------------------------------------

  /** One page read into `all`; None is an invalid or repeated entry. */
  function Absorb(entries: seq<Entry>, all: seq<Entry>): Option<seq<Entry>> {
    if entries == [] then Some(all)
    else if !ValidEntry(entries[0]) || entries[0].id in IdsOf(all) then None
    else Absorb(entries[1..], all + [entries[0]])
  }

  /** The client's loop from `page` on. The server's reply to the request for `cursor` may
      depend on how many pages were asked for before. */
  function ListFrom(server: (nat, string) -> Reply, page: nat, cursor: string, all: seq<Entry>): Result
    decreases MAX_PAGES - page
  {
    if page >= MAX_PAGES then BackendError
    else
      match server(page, cursor)
      case Failure => BackendError
      case Page(entries, next) =>
        match Absorb(entries, all)
        case None => InvalidData
        case Some(more) =>
          if next == "" then Ok(more)
          else if next == cursor then BackendError
          else ListFrom(server, page + 1, next, more)
  }

  class Client {
    constructor () {}

    /** `requests` counts the pages asked for. */
    method List(server: (nat, string) -> Reply) returns (r: Result, requests: nat)
      ensures r == ListFrom(server, 0, "", [])
      ensures 1 <= requests <= MAX_PAGES
    {
      var all: seq<Entry> := [];
      var cursor := "";
      var seen: set<Id> := {};
      requests := 0;
      while requests < MAX_PAGES
        invariant requests <= MAX_PAGES
        invariant forall id :: id in seen <==> id in IdsOf(all)
        invariant ListFrom(server, 0, "", []) == ListFrom(server, requests, cursor, all)
      {
        var out := server(requests, cursor);
        requests := requests + 1;
        if out.Failure? {
          return BackendError, requests;
        }
        ghost var start := all;
        for i := 0 to |out.entries|
          invariant forall id :: id in seen <==> id in IdsOf(all)
          invariant Absorb(out.entries, start) == Absorb(out.entries[i..], all)
        {
          var e := out.entries[i];
          assert out.entries[i..][1..] == out.entries[i + 1..];
          if !ValidEntry(e) || e.id in seen {
            return InvalidData, requests;
          }
          seen := seen + {e.id};
          all := all + [e];
          assert IdsOf(all) == IdsOf(all[..|all| - 1]) + [e.id];
          assert all[..|all| - 1] + [e] == all;
        }
        if out.nextCursor == "" {
          return Ok(all), requests;
        }
        if out.nextCursor == cursor {
          return BackendError, requests;
        }
        cursor := out.nextCursor;
      }
      return BackendError, requests;
    }
  }

  /** Every id is one the protocol allows, and no vector has an infinite or undefined component. */
  ghost predicate AllValid(s: seq<Entry>) {
    forall i :: 0 <= i < |s| ==> ValidId(s[i].id) && NonFinite !in s[i].vector
  }

  lemma ValidMeans(e: Entry)
    ensures ValidEntry(e) <==> ValidId(e.id) && NonFinite !in e.vector
  {
    if ValidId(e.id) && NonFinite !in e.vector {
      forall i | 0 <= i < |e.vector| ensures e.vector[i].Finite? { assert e.vector[i] in e.vector; }
    }
  }

  lemma {:induction false} AbsorbSafe(entries: seq<Entry>, all: seq<Entry>)
    requires DistinctIds(all) && AllValid(all)
    ensures var r := Absorb(entries, all);
            if AllValid(entries) && DistinctIds(all + entries) then r == Some(all + entries)
            else r == None
    ensures var r := Absorb(entries, all);
            r.Some? ==> DistinctIds(r.value) && AllValid(r.value)
  {
    if entries == [] {
      assert all + entries == all;
    } else {
      var e := entries[0];
      assert all + entries == (all + [e]) + entries[1..];
      ValidMeans(e);
      if ValidEntry(e) && e.id !in IdsOf(all) {
        assert DistinctIds(all + [e]) by {
          forall i | 0 <= i < |all| ensures all[i].id != e.id { assert IdsOf(all)[i] == all[i].id; }
        }
        AbsorbSafe(entries[1..], all + [e]);
        assert AllValid(entries) <==> AllValid(entries[1..]) by {
          assert forall i :: 0 <= i < |entries[1..]| ==> entries[1..][i] == entries[i + 1];
        }
      } else if e.id in IdsOf(all) {
        var i :| 0 <= i < |all| && IdsOf(all)[i] == e.id;
        assert (all + entries)[i].id == (all + entries)[|all|].id;
      }
    }
  }

  /** Against any server, a list that succeeds holds valid entries with distinct ids. */
  lemma {:induction false} ListIsSafe(server: (nat, string) -> Reply, page: nat, cursor: string, all: seq<Entry>)
    requires DistinctIds(all) && AllValid(all)
    ensures var r := ListFrom(server, page, cursor, all);
            r.Ok? ==> DistinctIds(r.entries) && AllValid(r.entries) && all <= r.entries
    decreases MAX_PAGES - page
  {
    if page < MAX_PAGES && server(page, cursor).Page? {
      var out := server(page, cursor);
      AbsorbSafe(out.entries, all);
      var more := Absorb(out.entries, all);
      if more.Some? && out.nextCursor != "" && out.nextCursor != cursor {
        ListIsSafe(server, page + 1, out.nextCursor, more.value);
      }
    }
  }

  /** The pages `pages`, asked for from `page` on with the cursors `cursors`, as the server gave
      them: each cursor but the first is the one the page before handed out, and is a new one. */
  ghost predicate Read(server: (nat, string) -> Reply, page: nat, cursor: string, pages: seq<Reply>,
                       cursors: seq<string>) {
    && |pages| == |cursors| > 0 && cursors[0] == cursor
    && (forall i :: 0 <= i < |pages| ==> pages[i].Page? && pages[i] == server(page + i, cursors[i]))
    && forall i :: 0 <= i < |pages| - 1 ==> Advances(pages[i], cursors[i], cursors[i + 1])
  }

  /** The page asked for with `cursor` hands out `next`, which is a new one. */
  ghost predicate Advances(out: Reply, cursor: string, next: string) {
    out.Page? && next == out.nextCursor && next != cursor && next != ""
  }

  /** The entries of the pages one after the other. */
  ghost function Joined(pages: seq<Reply>): seq<Entry>
    requires forall i :: 0 <= i < |pages| ==> pages[i].Page?
  {
    if pages == [] then [] else pages[0].entries + Joined(pages[1..])
  }

  /** A list that succeeds is the concatenation of the pages read, none of which failed and the
      last of which named no further one. */
  lemma {:induction false} ListIsItsPages(server: (nat, string) -> Reply, page: nat, cursor: string, all: seq<Entry>)
    returns (pages: seq<Reply>, cursors: seq<string>)
    requires DistinctIds(all) && AllValid(all) && ListFrom(server, page, cursor, all).Ok?
    ensures Read(server, page, cursor, pages, cursors) && page + |pages| <= MAX_PAGES
    ensures pages[|pages| - 1].nextCursor == ""
    ensures ListFrom(server, page, cursor, all).entries == all + Joined(pages)
    decreases MAX_PAGES - page
  {
    var out := server(page, cursor);
    AbsorbSafe(out.entries, all);
    var more := all + out.entries;
    if out.nextCursor == "" {
      pages, cursors := [out], [cursor];
      assert Joined([out]) == out.entries + Joined([]);
    } else {
      var rest, cs := ListIsItsPages(server, page + 1, out.nextCursor, more);
      pages, cursors := [out] + rest, [cursor] + cs;
      ReadMore(server, page, cursor, rest, cs);
      JoinedMore(all, out, rest);
    }
  }

  lemma ReadMore(server: (nat, string) -> Reply, page: nat, cursor: string, rest: seq<Reply>, cs: seq<string>)
    requires server(page, cursor).Page? && server(page, cursor).nextCursor != cursor
    requires server(page, cursor).nextCursor != "" && Read(server, page + 1, server(page, cursor).nextCursor, rest, cs)
    ensures Read(server, page, cursor, [server(page, cursor)] + rest, [cursor] + cs)
  {
    var pages, cursors := [server(page, cursor)] + rest, [cursor] + cs;
    forall i | 0 <= i < |pages| ensures pages[i].Page? && pages[i] == server(page + i, cursors[i]) {
      if i > 0 { assert pages[i] == rest[i - 1] == server(page + 1 + (i - 1), cs[i - 1]); }
    }
    forall i | 0 <= i < |pages| - 1 ensures Advances(pages[i], cursors[i], cursors[i + 1]) {
      if i > 0 { assert Advances(rest[i - 1], cs[i - 1], cs[i]); }
    }
  }

  lemma JoinedMore(all: seq<Entry>, out: Reply, rest: seq<Reply>)
    requires out.Page? && forall i :: 0 <= i < |rest| ==> rest[i].Page?
    ensures all + Joined([out] + rest) == (all + out.entries) + Joined(rest)
  {
    assert ([out] + rest)[1..] == rest;
  }

  /** `pages` are all the pages read before a list failed, and say why it did. */
  ghost predicate Explains(server: (nat, string) -> Reply, page: nat, cursor: string, all: seq<Entry>, r: Result,
                           pages: seq<Reply>, cursors: seq<string>)
  {
    && (pages == [] || Read(server, page, cursor, pages, cursors))
    && (forall i :: 0 <= i < |pages| ==> pages[i].Page?)
    && (r.InvalidData? <==> !AllValid(all + Joined(pages)) || !DistinctIds(all + Joined(pages)))
    && (r.BackendError? ==>
          var next := if pages == [] then cursor else pages[|pages| - 1].nextCursor;
          || page + |pages| == MAX_PAGES
          || server(page + |pages|, next).Failure?
          || (pages != [] && next != "" && next == cursors[|pages| - 1]))
  }

  /** Why a list fails: a page could not be read, or its cursor did not advance, or too many were
      read; or an entry was not valid or came twice. */
  lemma {:induction false} ListFails(server: (nat, string) -> Reply, page: nat, cursor: string, all: seq<Entry>)
    returns (pages: seq<Reply>, cursors: seq<string>)
    requires DistinctIds(all) && AllValid(all) && !ListFrom(server, page, cursor, all).Ok? && page <= MAX_PAGES
    ensures Explains(server, page, cursor, all, ListFrom(server, page, cursor, all), pages, cursors)
    decreases MAX_PAGES - page
  {
    pages, cursors := [], [];
    assert all + Joined([]) == all;
    if page < MAX_PAGES && server(page, cursor).Page? {
      var out := server(page, cursor);
      AbsorbSafe(out.entries, all);
      if Absorb(out.entries, all).Some? && out.nextCursor != cursor {
        var r := ListFrom(server, page + 1, out.nextCursor, all + out.entries);
        var rest, cs := ListFails(server, page + 1, out.nextCursor, all + out.entries);
        ExplainsLater(server, page, cursor, all, r, rest, cs);
        pages, cursors := [out] + rest, [cursor] + if rest == [] then [] else cs;
      } else {
        pages, cursors := [out], [cursor];
        ExplainsHere(server, page, cursor, all);
      }
    }
  }

  lemma ExplainsHere(server: (nat, string) -> Reply, page: nat, cursor: string, all: seq<Entry>)
    requires DistinctIds(all) && AllValid(all) && page < MAX_PAGES && server(page, cursor).Page?
    requires var out := server(page, cursor);
             Absorb(out.entries, all).Some? ==> out.nextCursor == cursor != ""
    ensures Explains(server, page, cursor, all, ListFrom(server, page, cursor, all), [server(page, cursor)], [cursor])
  {
    var out := server(page, cursor);
    AbsorbSafe(out.entries, all);
    AllValidBoth(all, out.entries);
    JoinedMore(all, out, []);
    assert [out] + [] == [out] && (all + out.entries) + Joined([]) == all + out.entries;
  }

  lemma ExplainsLater(server: (nat, string) -> Reply, page: nat, cursor: string, all: seq<Entry>, r: Result,
                      rest: seq<Reply>, cs: seq<string>)
    requires server(page, cursor).Page?
    requires var out := server(page, cursor);
             && out.nextCursor != "" && out.nextCursor != cursor
             && Explains(server, page + 1, out.nextCursor, all + out.entries, r, rest, cs)
    requires !r.Ok? && (rest != [] ==> |cs| == |rest|)
    ensures var out := server(page, cursor);
            Explains(server, page, cursor, all, r, [out] + rest, [cursor] + if rest == [] then [] else cs)
  {
    var out := server(page, cursor);
    JoinedMore(all, out, rest);
    if rest != [] {
      ReadMore(server, page, cursor, rest, cs);
      assert ([out] + rest)[|rest|] == rest[|rest| - 1] && ([cursor] + cs)[|rest|] == cs[|rest| - 1];
    }
  }

  lemma AllValidBoth(a: seq<Entry>, b: seq<Entry>)
    ensures AllValid(a + b) <==> AllValid(a) && AllValid(b)
  {
    if AllValid(a + b) {
      forall i | 0 <= i < |a| ensures ValidId(a[i].id) && NonFinite !in a[i].vector { assert (a + b)[i] == a[i]; }
      forall i | 0 <= i < |b| ensures ValidId(b[i].id) && NonFinite !in b[i].vector {
        assert (a + b)[|a| + i] == b[i];
      }
    }
  }

  // ---- numbers as cursors -----------------------------------------------------------------------

  function Digit(d: nat): char
    requires d < 10
  {
    ('0' as int + d) as char
  }

  function Itoa(n: nat): (s: string)
    ensures s != ""
  {
    if n < 10 then [Digit(n)] else Itoa(n / 10) + [Digit(n % 10)]
  }

  predicate Digits(s: string) {
    forall i :: 0 <= i < |s| ==> '0' <= s[i] <= '9'
  }

  function Value(s: string): nat
    requires Digits(s)
  {
    if s == "" then 0 else 10 * Value(s[..|s| - 1]) + (s[|s| - 1] as int - '0' as int)
  }

  /** strconv.Atoi with its error ignored: the number, or 0 for anything else. */
  function Atoi(s: string): int {
    if s != "" && Digits(s) then Value(s)
    else if |s| >= 2 && s[0] == '-' && Digits(s[1..]) then 0 - Value(s[1..])
    else if |s| >= 2 && s[0] == '+' && Digits(s[1..]) then Value(s[1..])
    else 0
  }

  lemma {:induction false} AtoiItoa(n: nat)
    ensures Digits(Itoa(n)) && Atoi(Itoa(n)) == n
  {
    if n >= 10 {
      AtoiItoa(n / 10);
      var s := Itoa(n);
      assert s[..|s| - 1] == Itoa(n / 10);
    } else {
      var c := Digit(n);
      assert c as int == '0' as int + n;
      assert [c][..0] == "";
      assert Value([c]) == n;
    }
  }

  /** A signed number is read as such, and whatever is no number as 0. */
  lemma AtoiMeans(n: nat, s: string)
    ensures Atoi("-" + Itoa(n)) == 0 - n && Atoi("+" + Itoa(n)) == n
    ensures (exists i :: 1 <= i < |s| && !('0' <= s[i] <= '9')) ==> Atoi(s) == 0
    ensures s == "" || (s[0] !in {'-', '+'} && !('0' <= s[0] <= '9')) ==> Atoi(s) == 0
  {
    AtoiItoa(n);
    var minus, plus := "-" + Itoa(n), "+" + Itoa(n);
    assert minus[1..] == Itoa(n) && plus[1..] == Itoa(n) && |Itoa(n)| >= 1;
    assert minus[0] == '-' && plus[0] == '+';
    assert s != "" && Digits(s) ==> forall i :: 1 <= i < |s| ==> '0' <= s[i] <= '9';
    assert |s| >= 2 && Digits(s[1..]) ==> forall i :: 1 <= i < |s| ==> s[i] == s[1..][i - 1];
  }

  // ---- the example server --------------------------------------------------------------------------

  /** The page handler on the sorted entries. */
  function Serve(sorted: seq<Entry>, cursor: string, limit: int): Reply {
    var size := if limit < 1 || limit > 1000 then 500 else limit;
    var at := Atoi(cursor);
    var offset := if at < 0 || at > |sorted| then |sorted| else at;
    var end := offset + size;
    if end < |sorted| then Page(sorted[offset..end], Itoa(end)) else Page(sorted[offset..], "")
  }

  /** The page at offset `n`, at most `limit` entries; 500 if the limit asked for is not from 1 to 1000. The
      cursor goes on exactly where the page ends, if it does not end with the last entry. */
  lemma ServeMeans(sorted: seq<Entry>, n: nat, limit: int)
    ensures 1 <= limit <= 1000 ==>
              Serve(sorted, Itoa(n), limit)
                == if n + limit < |sorted| then Page(sorted[n..n + limit], Itoa(n + limit))
                   else Page(if n <= |sorted| then sorted[n..] else [], "")
    ensures limit < 1 || 1000 < limit ==> Serve(sorted, Itoa(n), limit) == Serve(sorted, Itoa(n), 500)
    ensures Serve(sorted, "", limit) == Serve(sorted, Itoa(0), limit)
    ensures n > 0 ==> Serve(sorted, "-" + Itoa(n), limit) == Page([], "")
  {
    AtoiItoa(n);
    AtoiItoa(0);
    AtoiMeans(n, "");
    assert sorted[|sorted|..] == [];
    ServeAt(sorted, Itoa(n), limit);
    ServeAt(sorted, Itoa(n), 500);
    ServeAt(sorted, Itoa(0), limit);
    ServeAt(sorted, "", limit);
    ServeAt(sorted, "-" + Itoa(n), limit);
  }

  lemma ServeAt(sorted: seq<Entry>, cursor: string, limit: int)
    ensures var at := Atoi(cursor);
            var offset := if 0 <= at <= |sorted| then at else |sorted|;
            var end := offset + if 1 <= limit <= 1000 then limit else 500;
            Serve(sorted, cursor, limit)
              == if end < |sorted| then Page(sorted[offset..end], Itoa(end)) else Page(sorted[offset..], "")
  {}

  /** The client's requests reach the example server, whose map does not change; in which
      order it lists the map for each page, `listings` says. */
  function ExampleServer(listings: nat -> seq<Entry>): (nat, string) -> Reply {
    (page: nat, cursor: string) => Serve(SortEntries(listings(page)), cursor, PAGE_LIMIT)
  }

  ghost predicate Unchanging(listings: nat -> seq<Entry>, store: map<Id, Entry>) {
    forall page :: IsListing(listings(page), store)
  }

  /** From page `page` on, with everything before it read. */
  lemma {:induction false} ListsTheRest(server: (nat, string) -> Reply, sorted: seq<Entry>, page: nat, offset: nat)
    requires AnsweredFrom(server, sorted) && AllValid(sorted) && DistinctIds(sorted)
    requires page <= MAX_PAGES && offset == 500 * page && (offset < |sorted| || offset == 0)
    ensures ListFrom(server, page, CursorAt(offset), sorted[..offset])
         == if |sorted| <= 50_000_000 then Ok(sorted) else BackendError
    decreases MAX_PAGES - page
  {
    if page < MAX_PAGES {
      AnsweredAt(server, sorted, page, CursorAt(offset));
      PageRound(server, sorted, page, offset);
      if offset + 500 < |sorted| {
        ListsTheRest(server, sorted, page + 1, offset + 500);
      }
    } else {
      TooManyPages(server, page, CursorAt(offset), sorted[..offset]);
    }
  }

  /** Every page is read from the same sorted entries. */
  ghost predicate AnsweredFrom(server: (nat, string) -> Reply, sorted: seq<Entry>) {
    forall p: nat, cursor: string :: AnsweredWith(server, p, cursor, sorted)
  }

  predicate AnsweredWith(server: (nat, string) -> Reply, p: nat, cursor: string, sorted: seq<Entry>) {
    server(p, cursor) == Serve(sorted, cursor, PAGE_LIMIT)
  }

  lemma AnsweredAt(server: (nat, string) -> Reply, sorted: seq<Entry>, p: nat, cursor: string)
    requires AnsweredFrom(server, sorted)
    ensures server(p, cursor) == Serve(sorted, cursor, PAGE_LIMIT)
  {
    assert AnsweredWith(server, p, cursor, sorted);
  }

  lemma TooManyPages(server: (nat, string) -> Reply, page: nat, cursor: string, all: seq<Entry>)
    requires page >= MAX_PAGES
    ensures ListFrom(server, page, cursor, all) == BackendError
  {}

  /** The cursor of the page that starts at `offset`. */
  function CursorAt(offset: nat): string {
    if offset == 0 then "" else Itoa(offset)
  }

  lemma PageRound(server: (nat, string) -> Reply, sorted: seq<Entry>, page: nat, offset: nat)
    requires AllValid(sorted) && DistinctIds(sorted) && page < MAX_PAGES
    requires offset < |sorted| || offset == 0
    requires server(page, CursorAt(offset)) == Serve(sorted, CursorAt(offset), PAGE_LIMIT)
    ensures var end := offset + PAGE_LIMIT;
            ListFrom(server, page, CursorAt(offset), sorted[..offset])
            == if end < |sorted| then ListFrom(server, page + 1, CursorAt(end), sorted[..end]) else Ok(sorted)
  {
    ServesNext(sorted, offset);
    if offset + PAGE_LIMIT < |sorted| {
      ReadsNext(sorted, offset, offset + PAGE_LIMIT);
      AtoiItoa(offset);
      AtoiItoa(offset + PAGE_LIMIT);
      OnePage(server, page, CursorAt(offset), sorted[..offset], sorted[..offset + PAGE_LIMIT]);
    } else {
      ReadsNext(sorted, offset, |sorted|);
      assert sorted[offset..|sorted|] == sorted[offset..] && sorted[..|sorted|] == sorted;
      OnePage(server, page, CursorAt(offset), sorted[..offset], sorted);
    }
  }

  /** One round of the client's loop in which nothing goes wrong. */
  lemma OnePage(server: (nat, string) -> Reply, page: nat, cursor: string, all: seq<Entry>, more: seq<Entry>)
    requires page < MAX_PAGES && server(page, cursor).Page?
    requires Absorb(server(page, cursor).entries, all) == Some(more)
    requires server(page, cursor).nextCursor == "" || server(page, cursor).nextCursor != cursor
    ensures var next := server(page, cursor).nextCursor;
            ListFrom(server, page, cursor, all) == if next == "" then Ok(more)
                else ListFrom(server, page + 1, next, more)
  {}

  /** The server answers the cursor it gave out with the next slice. */
  lemma ServesNext(sorted: seq<Entry>, offset: nat)
    requires offset < |sorted| || offset == 0
    ensures Serve(sorted, CursorAt(offset), PAGE_LIMIT)
         == if offset + PAGE_LIMIT < |sorted| then Page(sorted[offset..offset + PAGE_LIMIT], Itoa(offset + PAGE_LIMIT))
            else Page(sorted[offset..], "")
  {
    AtoiItoa(offset);
  }

  /** The client appends the slice to what it has. */
  lemma ReadsNext(sorted: seq<Entry>, offset: nat, end: nat)
    requires offset <= end <= |sorted| && AllValid(sorted) && DistinctIds(sorted)
    ensures Absorb(sorted[offset..end], sorted[..offset]) == Some(sorted[..end])
  {
    assert sorted[..offset] + sorted[offset..end] == sorted[..end];
    AbsorbSafe(sorted[offset..end], sorted[..offset]);
  }

  /** Against the example server, whatever order it lists its unchanging map in for each
      page, List returns every stored entry exactly once in (created, id) order, if and
      only if the store fits the page limit; otherwise it reports an error. */
  lemma ListIsComplete(listings: nat -> seq<Entry>, store: map<Id, Entry>)
    requires Unchanging(listings, store) && forall id :: id in store ==> ValidEntry(store[id])
    ensures var sorted := SortEntries(listings(0));
            && IsListing(sorted, store) && Sorted(sorted)
            && ListFrom(ExampleServer(listings), 0, "", [])
               == if |sorted| <= 500 * 100_000 then Ok(sorted) else BackendError
  {
    var sorted := SortEntries(listings(0));
    SortedListingUnique(listings(0), listings(0), store);
    SortSorts(listings(0));
    assert AllValid(sorted) by {
      forall i | 0 <= i < |sorted| ensures ValidId(sorted[i].id) && NonFinite !in sorted[i].vector {
        assert sorted[i] in sorted;
        ValidMeans(sorted[i]);
      }
    }
    var server := ExampleServer(listings);
    forall p: nat, cursor: string ensures AnsweredWith(server, p, cursor, sorted) {
      SortedListingUnique(listings(0), listings(p), store);
    }
    ListsTheRest(server, sorted, 0, 0);
    assert sorted[..0] == [];
  }
}
