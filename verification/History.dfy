/** Pages of an account's history, cut by a keyset cursor with one row of lookahead, against the
    plain sorted listing, on a table that may grow between pages (src/api/history.rs). */
module History {
  import opened Common
  import opened Ledger
  import opened ExactlyOnce
  import FxConfig

  // The sort key of an entry; its id makes it unique.
  datatype Position = Position(createdAt: int, id: Id)

  // The row comparison (created_at, id) < (created_at, id).
  predicate Less(p: Position, q: Position) {
    p.createdAt < q.createdAt || (p.createdAt == q.createdAt && p.id < q.id)
  }

  datatype Selection = Selection(account: Id, counterparty: Option<Id>)

  predicate Selects(s: Selection, e: Entry) {
    e.account == s.account && (s.counterparty.Some? ==> e.counterparty == s.counterparty.value)
  }

  // The WHERE clause.
  function Matching(entries: map<Id, Entry>, s: Selection, cursor: Option<Position>): set<Position> {
    set id | id in entries && Selects(s, entries[id])
             && (cursor.Some? ==> Less(Position(entries[id].createdAt, id), cursor.value))
      :: Position(entries[id].createdAt, id)
  }

  ghost predicate IsNewest(s: set<Position>, p: Position) {
    p in s && forall q :: q in s && q != p ==> Less(q, p)
  }

  lemma {:induction false} NewestExists(s: set<Position>)
    requires s != {}
    ensures exists p :: IsNewest(s, p)
  {
    var p :| p in s;
    if s == {p} {
      assert IsNewest(s, p);
    } else {
      NewestExists(s - {p});
      var q :| IsNewest(s - {p}, q);
      assert p != q;
      if Less(p, q) {
        assert IsNewest(s, q);
      } else {
        forall x | x in s && x != p ensures Less(x, p) {
          assert x == q || Less(x, q);
        }
        assert IsNewest(s, p);
      }
    }
  }

  // ORDER BY created_at DESC, id DESC.
  ghost function Listing(s: set<Position>): seq<Position> {
    if s == {} then []
    else
      NewestExists(s);
      var p :| IsNewest(s, p);
      [p] + Listing(s - {p})
  }

  datatype Page = Page(items: seq<Position>, next: Option<Position>)

  // LIMIT limit + 1; the extra row only tells whether there is a next page.
  ghost function GetPage(entries: map<Id, Entry>, s: Selection, cursor: Option<Position>, limit: nat): Page
    requires limit >= 1
  {
    var all := Listing(Matching(entries, s, cursor));
    var rows := if |all| > limit + 1 then all[..limit + 1] else all;
    var items := if |rows| > limit then rows[..limit] else rows;
    Page(items, if |rows| > limit then Some(items[|items| - 1]) else None)
  }

  /* -------------------- the listing -------------------- */

  // Newest first, by (created_at, id).
  predicate Descending(p: seq<Position>) {
    forall i, j :: 0 <= i < j < |p| ==>
      p[i].createdAt > p[j].createdAt || (p[i].createdAt == p[j].createdAt && p[i].id > p[j].id)
  }

  function Elements(p: seq<Position>): set<Position> {
    set i | 0 <= i < |p| :: p[i]
  }

  lemma ElementsCons(p: Position, rest: seq<Position>)
    ensures Elements([p] + rest) == {p} + Elements(rest)
  {
    var all := [p] + rest;
    forall q | q in {p} + Elements(rest) ensures q in Elements(all) {
      if q == p {
        assert all[0] == q;
      } else {
        var i :| 0 <= i < |rest| && rest[i] == q;
        assert all[i + 1] == q;
      }
    }
  }

  lemma DescendingCons(p: Position, rest: seq<Position>)
    requires Descending(rest) && forall q :: q in Elements(rest) ==> Less(q, p)
    ensures Descending([p] + rest)
  {
    forall i | 0 <= i < |rest| ensures Less(rest[i], p) {
      assert rest[i] in Elements(rest);
    }
  }

  lemma ListingStep(s: set<Position>) returns (p: Position)
    requires s != {}
    ensures IsNewest(s, p) && Listing(s) == [p] + Listing(s - {p})
  {
    p := Listing(s)[0];
  }

  lemma {:induction false} ListingSorts(s: set<Position>)
    ensures Descending(Listing(s)) && Elements(Listing(s)) == s
  {
    if s != {} {
      var p := ListingStep(s);
      ListingSorts(s - {p});
      ElementsCons(p, Listing(s - {p}));
      DescendingCons(p, Listing(s - {p}));
    }
  }

  lemma NewestIsFirst(p: seq<Position>, q: Position)
    requires Descending(p) && IsNewest(Elements(p), q)
    ensures p[0] == q
  {
    assert p[0] in Elements(p);
  }

  // There is only one way to sort.
  lemma {:induction false} SortingIsUnique(p: seq<Position>)
    requires Descending(p)
    ensures Listing(Elements(p)) == p
  {
    var s := Elements(p);
    if p == [] {
    } else {
      assert p[0] in s;
      var q := Listing(s)[0];
      NewestIsFirst(p, q);
      assert Elements(p[1..]) == s - {q} by {
        forall x | x in s - {q} ensures x in Elements(p[1..]) {
          var i :| 0 <= i < |p| && p[i] == x;
          assert p[1..][i - 1] == x;
        }
        assert forall i :: 0 <= i < |p| - 1 ==> p[1..][i] == p[i + 1];
      }
      SortingIsUnique(p[1..]);
    }
  }

  /* -------------------- one page -------------------- */

  lemma PageItems(entries: map<Id, Entry>, s: Selection, cursor: Option<Position>, limit: nat)
    requires limit >= 1
    ensures var all, page := Listing(Matching(entries, s, cursor)), GetPage(entries, s, cursor, limit);
            && page.items == (if |all| > limit then all[..limit] else all)
            && page.next == (if |all| > limit then Some(all[limit - 1]) else None)
  {
  }

  lemma Window(all: seq<Position>, limit: nat, p: Position)
    requires Descending(all) && 1 <= limit < |all|
    ensures p in all[..limit] <==> p in Elements(all) && !Less(p, all[limit - 1])
    ensures p in all[limit..] <==> p in Elements(all) && Less(p, all[limit - 1])
  {
    if p in Elements(all) {
      var i :| 0 <= i < |all| && all[i] == p;
      if i < limit {
        assert all[..limit][i] == p;
      } else {
        assert all[limit..][i - limit] == p;
      }
    }
  }

  // The page holds exactly the positions of m down to its next cursor, in order.
  ghost predicate Shows(page: Page, m: set<Position>) {
    && Descending(page.items)
    && (page.next.Some? ==> page.items != [] && page.next.value == page.items[|page.items| - 1])
    && forall p :: p in page.items <==> p in m && (page.next.Some? ==> !Less(p, page.next.value))
  }

  lemma LastPageShows(all: seq<Position>)
    requires Descending(all)
    ensures Shows(Page(all, None), Elements(all))
  {
    assert forall p :: p in all <==> p in Elements(all);
  }

  lemma PrefixShows(all: seq<Position>, limit: nat)
    requires Descending(all) && 1 <= limit < |all|
    ensures Shows(Page(all[..limit], Some(all[limit - 1])), Elements(all))
  {
    forall p ensures p in all[..limit] <==> p in Elements(all) && !Less(p, all[limit - 1]) {
      Window(all, limit, p);
    }
  }

  lemma PageShows(entries: map<Id, Entry>, s: Selection, cursor: Option<Position>, limit: nat)
    requires limit >= 1
    ensures |GetPage(entries, s, cursor, limit).items| <= limit
    ensures Shows(GetPage(entries, s, cursor, limit), Matching(entries, s, cursor))
  {
    var all := Listing(Matching(entries, s, cursor));
    ListingSorts(Matching(entries, s, cursor));
    PageItems(entries, s, cursor, limit);
    if |all| > limit {
      PrefixShows(all, limit);
    } else {
      LastPageShows(all);
    }
  }

  // The position is that of an entry of the account asked for, with the counterparty asked for if
  // one was.
  ghost predicate Wanted(entries: map<Id, Entry>, s: Selection, p: Position) {
    p.id in entries &&
    var e := entries[p.id];
    && e.createdAt == p.createdAt && e.account == s.account
    && (s.counterparty.None? || s.counterparty == Some(e.counterparty))
  }

  lemma MatchingIsWanted(entries: map<Id, Entry>, s: Selection, cursor: Option<Position>)
    ensures forall p :: p in Matching(entries, s, cursor) <==>
              Wanted(entries, s, p) && (cursor.Some? ==> Less(p, cursor.value))
  {
  }

  // A page holds exactly the entries of the account and counterparty asked for that lie below its
  // cursor and not below its next cursor, newest first.
  lemma PageExact(entries: map<Id, Entry>, s: Selection, cursor: Option<Position>, limit: nat)
    requires limit >= 1
    ensures var page := GetPage(entries, s, cursor, limit);
            && |page.items| <= limit && Descending(page.items)
            && (page.next.Some? ==> page.items != [] && page.next.value == page.items[|page.items| - 1])
            && forall p :: p in page.items <==>
                 && Wanted(entries, s, p) && (cursor.Some? ==> Less(p, cursor.value))
                 && (page.next.Some? ==> !Less(p, page.next.value))
  {
    PageShows(entries, s, cursor, limit);
    MatchingIsWanted(entries, s, cursor);
  }

  // What is left to list after a page.
  ghost function Ahead(entries: map<Id, Entry>, s: Selection, page: Page): seq<Position> {
    if page.next.Some? then Listing(Matching(entries, s, page.next)) else []
  }

  function Under(m: set<Position>, last: Position): set<Position> {
    set p | p in m && Less(p, last)
  }

  lemma MatchingUnder(entries: map<Id, Entry>, s: Selection, cursor: Option<Position>, last: Position)
    requires last in Matching(entries, s, cursor)
    ensures Matching(entries, s, Some(last)) == Under(Matching(entries, s, cursor), last)
  {
  }

  lemma RestIsListed(all: seq<Position>, limit: nat)
    requires Descending(all) && 1 <= limit < |all|
    ensures Listing(Under(Elements(all), all[limit - 1])) == all[limit..]
  {
    var rest := all[limit..];
    forall p ensures p in Elements(rest) <==> p in Under(Elements(all), all[limit - 1]) {
      Window(all, limit, p);
      assert p in Elements(rest) <==> p in rest;
    }
    assert Elements(rest) == Under(Elements(all), all[limit - 1]);
    SortingIsUnique(rest);
  }

  // A page and what is listed after its next cursor are what is listed after its cursor.
  lemma PageSplits(entries: map<Id, Entry>, s: Selection, cursor: Option<Position>, limit: nat)
    requires limit >= 1
    ensures var page := GetPage(entries, s, cursor, limit);
            Listing(Matching(entries, s, cursor)) == page.items + Ahead(entries, s, page)
  {
    var all := Listing(Matching(entries, s, cursor));
    ListingSorts(Matching(entries, s, cursor));
    PageItems(entries, s, cursor, limit);
    if |all| > limit {
      assert all[limit - 1] in Elements(all);
      MatchingUnder(entries, s, cursor, all[limit - 1]);
      RestIsListed(all, limit);
    }
  }

  // A page with a next cursor is full, and the page after it has something to show.
  lemma LookaheadIsExact(
      entries: map<Id, Entry>, s: Selection, cursor: Option<Position>, limit: nat, nextLimit: nat)
    requires limit >= 1 && nextLimit >= 1 && GetPage(entries, s, cursor, limit).next.Some?
    ensures |GetPage(entries, s, cursor, limit).items| == limit
    ensures GetPage(entries, s, GetPage(entries, s, cursor, limit).next, nextLimit).items != []
  {
    PageItems(entries, s, cursor, limit);
    PageSplits(entries, s, cursor, limit);
    PageItems(entries, s, GetPage(entries, s, cursor, limit).next, nextLimit);
  }

  /* -------------------- following next_cursor -------------------- */

  function CursorOf(pages: seq<Page>, i: nat): Option<Position>
    requires i <= |pages|
  {
    if i == 0 then None else pages[i - 1].next
  }

  // Page i is read from tables[i], the first from the start and every other from the cursor of the
  // page before it.
  ghost predicate ReadAt(tables: seq<map<Id, Entry>>, s: Selection, limits: seq<nat>, pages: seq<Page>, i: nat)
    requires |tables| == |limits| == |pages| && i < |pages|
  {
    1 <= limits[i] <= 100 && pages[i] == GetPage(tables[i], s, CursorOf(pages, i), limits[i])
  }

  ghost predicate IsTraversal(tables: seq<map<Id, Entry>>, s: Selection, limits: seq<nat>, pages: seq<Page>) {
    && |tables| == |limits| == |pages| > 0
    && (forall i :: 0 <= i < |pages| - 1 ==> pages[i].next.Some?)
    && (forall i: nat :: i < |pages| ==> ReadAt(tables, s, limits, pages, i))
  }

  predicate IsComplete(pages: seq<Page>)
    requires pages != []
  {
    pages[|pages| - 1].next.None?
  }

  // Entries are never changed or removed.
  predicate Extends(entries: map<Id, Entry>, later: map<Id, Entry>) {
    forall e :: e in entries ==> e in later && later[e] == entries[e]
  }

  predicate Growing(tables: seq<map<Id, Entry>>) {
    forall i, j :: 0 <= i <= j < |tables| ==> Extends(tables[i], tables[j])
  }

  function Items(pages: seq<Page>): seq<Position> {
    if pages == [] then [] else Items(pages[..|pages| - 1]) + pages[|pages| - 1].items
  }

  ghost predicate ShowsAt(tables: seq<map<Id, Entry>>, s: Selection, pages: seq<Page>, i: nat)
    requires |tables| == |pages| && i < |pages|
  {
    Shows(pages[i], Matching(tables[i], s, CursorOf(pages, i)))
  }

  // What all that follows needs to know of the pages.
  ghost predicate IsCut(tables: seq<map<Id, Entry>>, s: Selection, pages: seq<Page>) {
    && |tables| == |pages| > 0
    && (forall i :: 0 <= i < |pages| - 1 ==> pages[i].next.Some?)
    && (forall i: nat :: i < |pages| ==> ShowsAt(tables, s, pages, i))
  }

  lemma TraversalCuts(tables: seq<map<Id, Entry>>, s: Selection, limits: seq<nat>, pages: seq<Page>)
    requires IsTraversal(tables, s, limits, pages)
    ensures IsCut(tables, s, pages)
  {
    forall i: nat | i < |pages| ensures ShowsAt(tables, s, pages, i) {
      assert ReadAt(tables, s, limits, pages, i);
      PageShows(tables[i], s, CursorOf(pages, i), limits[i]);
    }
  }

  // One more page, all of it below the last position shown so far.
  lemma PageJoins(shown: seq<Position>, page: Page, m: set<Position>)
    requires Descending(shown) && shown != [] && Shows(page, m)
    requires forall p :: p in m ==> Less(p, shown[|shown| - 1])
    ensures var all := shown + page.items;
            Descending(all) && (page.next.Some? ==> all[|all| - 1] == page.next.value)
  {
    forall i | 0 <= i < |page.items| ensures Less(page.items[i], shown[|shown| - 1]) {
      assert page.items[i] in page.items;
    }
    DescendingJoins(shown, page.items);
  }

  lemma ItemsOneMore(pages: seq<Page>, n: nat)
    requires 0 < n <= |pages|
    ensures Items(pages[..n]) == Items(pages[..n - 1]) + pages[n - 1].items
  {
    assert pages[..n][..n - 1] == pages[..n - 1];
  }

  lemma {:induction false} CutDescends(tables: seq<map<Id, Entry>>, s: Selection, pages: seq<Page>, n: nat)
    requires IsCut(tables, s, pages) && 0 < n <= |pages|
    ensures Descending(Items(pages[..n]))
    ensures pages[n - 1].next.Some? ==>
              Items(pages[..n]) != [] && Items(pages[..n])[|Items(pages[..n])| - 1] == pages[n - 1].next.value
  {
    assert ShowsAt(tables, s, pages, n - 1);
    ItemsOneMore(pages, n);
    if n == 1 {
      assert Items(pages[..0]) == [];
    } else {
      CutDescends(tables, s, pages, n - 1);
      PageJoins(Items(pages[..n - 1]), pages[n - 1], Matching(tables[n - 1], s, CursorOf(pages, n - 1)));
    }
  }

  // However the table changes in between, the pages put together are strictly descending: nothing
  // is shown twice, and nothing out of order.
  lemma TraversalDescends(tables: seq<map<Id, Entry>>, s: Selection, limits: seq<nat>, pages: seq<Page>)
    requires IsTraversal(tables, s, limits, pages)
    ensures Descending(Items(pages))
  {
    TraversalCuts(tables, s, limits, pages);
    CutDescends(tables, s, pages, |pages|);
    assert pages[..|pages|] == pages;
  }

  lemma DescendingJoins(p: seq<Position>, q: seq<Position>)
    requires Descending(p) && Descending(q) && p != []
    requires forall i :: 0 <= i < |q| ==> Less(q[i], p[|p| - 1])
    ensures Descending(p + q)
  {
  }

  // The listing from page i on is the page and then the listing from the next page on.
  ghost predicate ListedFrom(entries: map<Id, Entry>, s: Selection, pages: seq<Page>, i: nat)
    requires i < |pages|
  {
    Listing(Matching(entries, s, CursorOf(pages, i))) == pages[i].items + Ahead(entries, s, pages[i])
  }

  lemma {:induction false} ListedSoFar(entries: map<Id, Entry>, s: Selection, pages: seq<Page>, n: nat)
    requires 0 < n <= |pages| && forall i :: 0 <= i < |pages| - 1 ==> pages[i].next.Some?
    requires forall i: nat :: i < |pages| ==> ListedFrom(entries, s, pages, i)
    ensures Listing(Matching(entries, s, None)) == Items(pages[..n]) + Ahead(entries, s, pages[n - 1])
  {
    assert ListedFrom(entries, s, pages, n - 1);
    assert pages[..n][..n - 1] == pages[..n - 1];
    if n > 1 {
      ListedSoFar(entries, s, pages, n - 1);
    }
  }

  lemma PageListed(
      entries: map<Id, Entry>, s: Selection, tables: seq<map<Id, Entry>>, limits: seq<nat>, pages: seq<Page>, i: nat)
    requires IsTraversal(tables, s, limits, pages) && i < |pages| && tables[i] == entries
    ensures ListedFrom(entries, s, pages, i)
  {
    assert ReadAt(tables, s, limits, pages, i);
    PageSplits(entries, s, CursorOf(pages, i), limits[i]);
  }

  lemma FixedTableIsListing(
      entries: map<Id, Entry>, s: Selection, tables: seq<map<Id, Entry>>, limits: seq<nat>, pages: seq<Page>)
    requires IsTraversal(tables, s, limits, pages) && IsComplete(pages)
    requires forall i :: 0 <= i < |tables| ==> tables[i] == entries
    ensures Items(pages) == Listing(Matching(entries, s, None))
  {
    forall i: nat | i < |pages| ensures ListedFrom(entries, s, pages, i) {
      PageListed(entries, s, tables, limits, pages, i);
    }
    ListedSoFar(entries, s, pages, |pages|);
    assert pages[..|pages|] == pages;
  }

  lemma ListingIsWanted(entries: map<Id, Entry>, s: Selection)
    ensures Descending(Listing(Matching(entries, s, None)))
    ensures forall p :: p in Listing(Matching(entries, s, None)) <==> Wanted(entries, s, p)
  {
    var all := Listing(Matching(entries, s, None));
    ListingSorts(Matching(entries, s, None));
    MatchingIsWanted(entries, s, None);
    assert forall p :: p in all <==> p in Elements(all);
  }

  // On an unchanged table a complete traversal shows all entries asked for and no others, newest
  // first, whatever the page sizes.
  lemma FixedTableIsListed(
      entries: map<Id, Entry>, s: Selection, tables: seq<map<Id, Entry>>, limits: seq<nat>, pages: seq<Page>)
    requires IsTraversal(tables, s, limits, pages) && IsComplete(pages)
    requires forall i :: 0 <= i < |tables| ==> tables[i] == entries
    ensures Descending(Items(pages))
    ensures forall p :: p in Items(pages) <==> Wanted(entries, s, p)
  {
    FixedTableIsListing(entries, s, tables, limits, pages);
    ListingIsWanted(entries, s);
  }

  lemma {:induction false} ItemsAtLeast(pages: seq<Page>, n: nat)
    requires n <= |pages| && forall i :: 0 <= i < n ==> pages[i].items != []
    ensures |Items(pages[..n])| >= n
  {
    if n > 0 {
      ItemsAtLeast(pages, n - 1);
      assert pages[..n][..n - 1] == pages[..n - 1];
    }
  }

  lemma ReadWithNext(tables: seq<map<Id, Entry>>, s: Selection, limits: seq<nat>, pages: seq<Page>, i: nat)
    requires IsTraversal(tables, s, limits, pages) && i < |pages| && pages[i].next.Some?
    ensures pages[i].items != [] && Ahead(tables[i], s, pages[i]) != []
  {
    assert ReadAt(tables, s, limits, pages, i);
    LookaheadIsExact(tables[i], s, CursorOf(pages, i), limits[i], 1);
    PageItems(tables[i], s, pages[i].next, 1);
  }

  // On an unchanged table the cursors run out: past the first, every page shows an entry more, so
  // there are no more pages than entries asked for.
  lemma TraversalEnds(
      entries: map<Id, Entry>, s: Selection, tables: seq<map<Id, Entry>>, limits: seq<nat>, pages: seq<Page>)
    returns (all: seq<Position>)
    requires IsTraversal(tables, s, limits, pages) && forall i :: 0 <= i < |tables| ==> tables[i] == entries
    ensures Descending(all) && forall p :: p in all <==> Wanted(entries, s, p)
    ensures |pages| == 1 || |pages| <= |all|
  {
    all := Listing(Matching(entries, s, None));
    ListingIsWanted(entries, s);
    var n := |pages| - 1;
    forall i: nat | i < |pages|
      ensures ListedFrom(entries, s, pages, i)
      ensures i < n ==> pages[i].items != [] && Ahead(entries, s, pages[i]) != []
    {
      PageListed(entries, s, tables, limits, pages, i);
      if i < n {
        ReadWithNext(tables, s, limits, pages, i);
      }
    }
    if n > 0 {
      ListedSoFar(entries, s, pages, n);
      ItemsAtLeast(pages, n);
    }
  }

  // An entry below the cursor is on the page or below the next cursor.
  lemma StillAhead(page: Page, entries: map<Id, Entry>, s: Selection, cursor: Option<Position>, p: Position)
    requires Shows(page, Matching(entries, s, cursor))
    requires p in Matching(entries, s, None) && (cursor.Some? ==> Less(p, cursor.value))
    ensures p in page.items || (page.next.Some? && Less(p, page.next.value))
  {
  }

  ghost predicate ShownOrAhead(pages: seq<Page>, n: nat, p: Position)
    requires 0 < n <= |pages|
  {
    p in Items(pages[..n]) || (pages[n - 1].next.Some? && Less(p, pages[n - 1].next.value))
  }

  // A matching entry that was there first is shown by page n, unless it lies below the cursor.
  lemma {:induction false} ShownSoFar(
      tables: seq<map<Id, Entry>>, s: Selection, pages: seq<Page>, n: nat, p: Position)
    requires IsCut(tables, s, pages) && Growing(tables) && 0 < n <= |pages|
    requires p in Matching(tables[0], s, None)
    ensures ShownOrAhead(pages, n, p)
  {
    if n > 1 {
      ShownSoFar(tables, s, pages, n - 1, p);
    }
    assert pages[..n][..n - 1] == pages[..n - 1];
    if n == 1 || p !in Items(pages[..n - 1]) {
      assert Extends(tables[0], tables[n - 1]);
      StillMatching(tables[0], tables[n - 1], s, p);
      assert ShowsAt(tables, s, pages, n - 1);
      StillAhead(pages[n - 1], tables[n - 1], s, CursorOf(pages, n - 1), p);
    }
  }

  lemma StillMatching(entries: map<Id, Entry>, later: map<Id, Entry>, s: Selection, p: Position)
    requires Extends(entries, later) && p in Matching(entries, s, None)
    ensures p in Matching(later, s, None)
  {
  }

  // With rows inserted between the pages, a complete traversal still shows every entry that was
  // there when the first page was read.
  lemma NothingIsMissed(tables: seq<map<Id, Entry>>, s: Selection, limits: seq<nat>, pages: seq<Page>, p: Position)
    requires IsTraversal(tables, s, limits, pages) && IsComplete(pages) && Growing(tables)
    requires Wanted(tables[0], s, p)
    ensures p in Items(pages)
  {
    MatchingIsWanted(tables[0], s, None);
    TraversalCuts(tables, s, limits, pages);
    ShownSoFar(tables, s, pages, |pages|, p);
    assert pages[..|pages|] == pages;
  }

  lemma {:induction false} ShownFrom(pages: seq<Page>, p: Position) returns (i: nat)
    requires p in Items(pages)
    ensures i < |pages| && p in pages[i].items
  {
    var n := |pages| - 1;
    if p in pages[n].items {
      i := n;
    } else {
      i := ShownFrom(pages[..n], p);
    }
  }

  lemma ShownIsMatching(page: Page, entries: map<Id, Entry>, s: Selection, cursor: Option<Position>, p: Position)
    requires Shows(page, Matching(entries, s, cursor)) && p in page.items
    ensures p in Matching(entries, s, None)
  {
  }

  // Nothing is shown but entries of the account and counterparty asked for, of the table as it
  // finally is.
  lemma NothingForeign(tables: seq<map<Id, Entry>>, s: Selection, limits: seq<nat>, pages: seq<Page>, p: Position)
    requires IsTraversal(tables, s, limits, pages) && Growing(tables)
    requires p in Items(pages)
    ensures Wanted(tables[|tables| - 1], s, p)
  {
    MatchingIsWanted(tables[|tables| - 1], s, None);
    var i := ShownFrom(pages, p);
    TraversalCuts(tables, s, limits, pages);
    assert ShowsAt(tables, s, pages, i);
    ShownIsMatching(pages[i], tables[i], s, CursorOf(pages, i), p);
    assert Extends(tables[i], tables[|tables| - 1]);
    StillMatching(tables[i], tables[|tables| - 1], s, p);
  }

  /* -------------------- on the ledger -------------------- */

  // The entries at successive moments of a ledger run.
  ghost predicate Snapshots(config: FxConfig.Config, dbs: seq<Db>, between: seq<seq<Event>>) {
    && |dbs| == |between| + 1
    && forall i :: 0 <= i < |between| ==> dbs[i + 1] == Run(config, dbs[i], between[i])
  }

  lemma {:induction false} SnapshotsGrow(config: FxConfig.Config, dbs: seq<Db>, between: seq<seq<Event>>, i: nat, j: nat)
    requires Snapshots(config, dbs, between) && i <= j < |dbs|
    ensures Grows(dbs[i], dbs[j])
  {
    if i < j {
      SnapshotsGrow(config, dbs, between, i, j - 1);
      RunGrows(config, dbs[j - 1], between[j - 1]);
      GrowsTransitive(dbs[i], dbs[j - 1], dbs[j]);
    }
  }

  // Reading page by page while requests are served misses nothing that was asked for and there at the
  // first page, repeats nothing, and shows nothing else.
  lemma PagingWhileServing(
      config: FxConfig.Config, dbs: seq<Db>, between: seq<seq<Event>>, s: Selection, limits: seq<nat>, pages: seq<Page>,
      tables: seq<map<Id, Entry>>, p: Position)
    requires Snapshots(config, dbs, between) && |tables| == |dbs|
    requires forall i :: 0 <= i < |dbs| ==> tables[i] == dbs[i].entries
    requires IsTraversal(tables, s, limits, pages) && IsComplete(pages)
    ensures Descending(Items(pages))
    ensures Wanted(dbs[0].entries, s, p) ==> p in Items(pages)
    ensures p in Items(pages) ==> Wanted(dbs[|dbs| - 1].entries, s, p)
  {
    forall i, j | 0 <= i <= j < |tables| ensures Extends(tables[i], tables[j]) {
      SnapshotsGrow(config, dbs, between, i, j);
    }
    TraversalDescends(tables, s, limits, pages);
    if Wanted(dbs[0].entries, s, p) {
      NothingIsMissed(tables, s, limits, pages, p);
    }
    if p in Items(pages) {
      NothingForeign(tables, s, limits, pages, p);
    }
  }
}
