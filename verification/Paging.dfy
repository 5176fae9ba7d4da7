/** Keyset pagination: what a page promises, and what following the cursors yields. */
module Paging {
  import opened Counting
  import opened Keyset

  datatype Page<T> = Page(items: seq<T>, next: Option<Key>)

  /** Rows listed strictly after the cursor: `(time, id) < cursor` when descending, `>` when ascending. */
  function After<T(!new)>(d: Direction, key: T -> Key, rows: set<T>, cursor: Option<Key>): set<T> {
    set x | x in rows && (cursor.None? || Before(d, cursor.value, key(x)))
  }

  /** The promise of one page: the first `limit` rows after the cursor, and a cursor at the last of them
      exactly when more rows follow. */
  ghost predicate IsPage<T(!new)>(d: Direction, key: T -> Key, rows: set<T>, cursor: Option<Key>, limit: nat, page: Page<T>) {
    var after := After(d, key, rows, cursor);
    && IsTop(d, key, after, limit, page.items)
    && if forall x | x in after :: x in page.items then page.next.None?
       else page.items != [] && page.next == Some(key(page.items[|page.items| - 1]))
  }

  // ---- the same promise on the rows' own columns --------------------------------------------

  /** Strictly further down the list: later, or earlier when the newest come first; ties by identifier. */
  predicate Beyond(newestFirst: bool, t: Time, i: Id, at: Time, id: Id) {
    if newestFirst then t < at || (t == at && i < id) else t > at || (t == at && i > id)
  }

  predicate BeyondCursor(newestFirst: bool, t: Time, i: Id, cursor: Option<Key>) {
    cursor.None? || Beyond(newestFirst, t, i, cursor.value.at, cursor.value.id)
  }

  /** One page of the rows to `keep`, by the column `at` and then `id`: in order, strictly past the cursor, the
      first `limit` of them, and with a cursor at the last one exactly when some are left. */
  ghost predicate IsListPage<T(!new)>(rows: set<T>, keep: T -> bool, at: T -> Time, id: T -> Id, newestFirst: bool,
                                      cursor: Option<Key>, limit: nat, page: Page<T>) {
    && |page.items| <= limit
    && (forall x <- page.items :: x in rows && keep(x) && BeyondCursor(newestFirst, at(x), id(x), cursor))
    && (forall i, j | 0 <= i < j < |page.items| ::
          page.items[i] != page.items[j]
          && !Beyond(newestFirst, at(page.items[i]), id(page.items[i]), at(page.items[j]), id(page.items[j])))
    && (forall x, y | x in rows && keep(x) && BeyondCursor(newestFirst, at(x), id(x), cursor) && x !in page.items && y in page.items ::
          !Beyond(newestFirst, at(y), id(y), at(x), id(x)))
    && (page.next.None? <==> forall x | x in rows && keep(x) && BeyondCursor(newestFirst, at(x), id(x), cursor) :: x in page.items)
    && (page.next.Some? ==>
          |page.items| == limit > 0 && var last := page.items[limit - 1]; page.next.value.at == at(last) && page.next.value.id == id(last))
  }

  lemma PageIsListed<T(!new)>(d: Direction, key: T -> Key, listed: set<T>, cursor: Option<Key>, limit: nat, page: Page<T>,
                              rows: set<T>, keep: T -> bool, at: T -> Time, id: T -> Id)
    requires IsPage(d, key, listed, cursor, limit, page)
    requires forall x :: x in listed <==> x in rows && keep(x)
    requires forall x: T :: key(x).at == at(x) && key(x).id == id(x)
    ensures IsListPage(rows, keep, at, id, d.Descending?, cursor, limit, page)
  {
    forall x, y: T ensures Before(d, key(y), key(x)) <==> Beyond(d.Descending?, at(x), id(x), at(y), id(y)) {
    }
    forall x ensures x in After(d, key, listed, cursor) <==>
                       x in rows && keep(x) && BeyondCursor(d.Descending?, at(x), id(x), cursor) {
    }
  }

  /** Drop the extra row of a fetch by one too many, and take the cursor from the last row kept. */
  method Truncate<T(!new)>(ghost d: Direction, key: T -> Key, ghost rows: set<T>, ghost cursor: Option<Key>, limit: nat, fetched: seq<T>)
    returns (page: Page<T>)
    requires limit >= 1 && IsTop(d, key, After(d, key, rows, cursor), limit + 1, fetched)
    ensures IsPage(d, key, rows, cursor, limit, page)
  {
    if |fetched| > limit {
      var kept := fetched[..limit];
      FrontOfTop(d, key, After(d, key, rows, cursor), limit, fetched);
      page := Page(kept, Some(key(kept[|kept| - 1])));
    } else {
      page := Page(fetched, None);
    }
  }

  lemma FrontOfTop<T(!new)>(d: Direction, key: T -> Key, rows: set<T>, limit: nat, fetched: seq<T>)
    requires IsTop(d, key, rows, limit + 1, fetched) && |fetched| > limit
    ensures IsTop(d, key, rows, limit, fetched[..limit])
    ensures fetched[limit] in rows && fetched[limit] !in fetched[..limit]
  {
  }

  method CutPage<T(==,!new)>(d: Direction, key: T -> Key, rows: set<T>, cursor: Option<Key>, limit: nat) returns (page: Page<T>)
    requires limit >= 1
    ensures IsPage(d, key, rows, cursor, limit, page)
  {
    var fetched := OrderByLimit(d, key, After(d, key, rows, cursor), limit + 1);
    page := Truncate(d, key, rows, cursor, limit, fetched);
  }

  /** One client following the cursors for some pages; the table may be different at every request. */
  ghost predicate IsChain<T(!new)>(d: Direction, key: T -> Key, limit: nat, tables: seq<set<T>>, cursor: Option<Key>, pages: seq<Page<T>>)
    decreases |pages|
  {
    && |tables| == |pages| > 0
    && IsPage(d, key, tables[0], cursor, limit, pages[0])
    && (|pages| > 1 ==> pages[0].next.Some? && IsChain(d, key, limit, tables[1..], pages[0].next, pages[1..]))
  }

  /** The cursor the last page left. */
  function End<T>(pages: seq<Page<T>>): Option<Key>
    requires pages != []
  {
    pages[|pages| - 1].next
  }

  /** Following them to the end. */
  ghost predicate IsWalk<T(!new)>(d: Direction, key: T -> Key, limit: nat, tables: seq<set<T>>, cursor: Option<Key>, pages: seq<Page<T>>) {
    IsChain(d, key, limit, tables, cursor, pages) && End(pages).None?
  }

  function Items<T>(pages: seq<Page<T>>): seq<T> {
    if pages == [] then [] else pages[0].items + Items(pages[1..])
  }

  ghost predicate InOrder<T>(d: Direction, key: T -> Key, items: seq<T>) {
    forall i, j | 0 <= i < j < |items| :: Before(d, key(items[i]), key(items[j]))
  }

  ghost predicate HasKey<T(!new)>(key: T -> Key, rows: set<T>, k: Key) {
    exists x :: x in rows && key(x) == k
  }

  ghost predicate Lists<T>(key: T -> Key, items: seq<T>, k: Key) {
    exists i :: 0 <= i < |items| && key(items[i]) == k
  }

  lemma PageIsInOrder<T(!new)>(d: Direction, key: T -> Key, rows: set<T>, cursor: Option<Key>, limit: nat, page: Page<T>)
    requires KeysDiffer(key, rows) && IsPage(d, key, rows, cursor, limit, page)
    ensures InOrder(d, key, page.items)
    ensures cursor.Some? ==> forall x <- page.items :: Before(d, cursor.value, key(x))
    ensures page.next.Some? ==> forall x <- page.items :: !Before(d, page.next.value, key(x))
  {
  }

  /** Nothing is lost between a page and its successor. */
  lemma PageOrLater<T(!new)>(d: Direction, key: T -> Key, rows: set<T>, cursor: Option<Key>, limit: nat, page: Page<T>, k: Key)
    requires KeysDiffer(key, rows) && IsPage(d, key, rows, cursor, limit, page)
    requires HasKey(key, rows, k) && (cursor.None? || Before(d, cursor.value, k))
    ensures Lists(key, page.items, k) || (page.next.Some? && Before(d, page.next.value, k))
  {
    var x :| x in rows && key(x) == k;
    assert x in After(d, key, rows, cursor);
    if x !in page.items {
      assert forall y <- page.items :: key(y) != k;
    }
  }

  /** `k` is there at every request. */
  ghost predicate Stable<T(!new)>(key: T -> Key, tables: seq<set<T>>, k: Key) {
    forall t <- tables :: HasKey(key, t, k)
  }

  predicate Past(d: Direction, cursor: Option<Key>, k: Key) {
    cursor.None? || Before(d, cursor.value, k)
  }

  /** A stable key past the cursor is listed, or still lies ahead of the cursor the last page left. */
  lemma {:induction false} ChainReaches<T(!new)>(d: Direction, key: T -> Key, limit: nat, tables: seq<set<T>>,
                                                 cursor: Option<Key>, pages: seq<Page<T>>, k: Key)
    requires IsChain(d, key, limit, tables, cursor, pages)
    requires forall t <- tables :: KeysDiffer(key, t)
    requires Past(d, cursor, k) && Stable(key, tables, k)
    ensures Lists(key, Items(pages), k) || (End(pages).Some? && Past(d, End(pages), k))
    decreases |pages|
  {
    var page, rest := pages[0], Items(pages[1..]);
    PageOrLater(d, key, tables[0], cursor, limit, page, k);
    if Lists(key, page.items, k) {
      var i :| 0 <= i < |page.items| && key(page.items[i]) == k;
      assert Items(pages)[i] == page.items[i];
    } else if |pages| > 1 {
      ChainReaches(d, key, limit, tables[1..], page.next, pages[1..], k);
      if Lists(key, rest, k) {
        var i :| 0 <= i < |rest| && key(rest[i]) == k;
        assert Items(pages)[|page.items| + i] == rest[i];
      }
    }
  }

  lemma {:induction false} ChainIsInOrder<T(!new)>(d: Direction, key: T -> Key, limit: nat, tables: seq<set<T>>,
                                                   cursor: Option<Key>, pages: seq<Page<T>>)
    requires IsChain(d, key, limit, tables, cursor, pages)
    requires forall t <- tables :: KeysDiffer(key, t)
    ensures InOrder(d, key, Items(pages))
    ensures forall x <- Items(pages) :: Past(d, cursor, key(x))
    decreases |pages|
  {
    PageIsInOrder(d, key, tables[0], cursor, limit, pages[0]);
    if |pages| > 1 {
      ChainIsInOrder(d, key, limit, tables[1..], pages[0].next, pages[1..]);
    } else {
      assert Items(pages) == pages[0].items;
    }
  }

  /** The promise of a walk, however far it has got: no row is repeated or out of order, and every key that
      was there at each request is listed, hence exactly once, except those ahead of its cursor; at the end
      there are none. */
  ghost predicate ListsStable<T(!new)>(d: Direction, key: T -> Key, tables: seq<set<T>>, cursor: Option<Key>, pages: seq<Page<T>>)
    requires pages != []
  {
    && InOrder(d, key, Items(pages)) && (forall x <- Items(pages) :: Past(d, cursor, key(x)))
    && forall k | Past(d, cursor, k) && Stable(key, tables, k) && (End(pages).None? || !Past(d, End(pages), k)) ::
         Lists(key, Items(pages), k)
  }

  /** Rows may come, go and change between requests. */
  lemma WalkListsEveryStableRow<T(!new)>(d: Direction, key: T -> Key, limit: nat, tables: seq<set<T>>,
                                         cursor: Option<Key>, pages: seq<Page<T>>)
    requires IsChain(d, key, limit, tables, cursor, pages)
    requires forall t <- tables :: KeysDiffer(key, t)
    ensures ListsStable(d, key, tables, cursor, pages)
  {
    ChainIsInOrder(d, key, limit, tables, cursor, pages);
    forall k | Past(d, cursor, k) && Stable(key, tables, k) && (End(pages).None? || !Past(d, End(pages), k))
      ensures Lists(key, Items(pages), k)
    {
      ChainReaches(d, key, limit, tables, cursor, pages, k);
    }
  }

  /** Following the cursor leaves exactly the rows the page did not list. */
  lemma NextCursorLeavesRest<T(!new)>(d: Direction, key: T -> Key, rows: set<T>, cursor: Option<Key>, limit: nat, page: Page<T>)
    requires KeysDiffer(key, rows) && IsPage(d, key, rows, cursor, limit, page) && page.next.Some?
    ensures After(d, key, rows, page.next) == Rest(After(d, key, rows, cursor), page.items)
    ensures |page.items| == limit
  {
    var after, last := After(d, key, rows, cursor), page.items[|page.items| - 1];
    forall x ensures x in After(d, key, rows, page.next) <==> x in Rest(after, page.items) {
      if x in after && x !in page.items { assert key(x) != key(last); }
    }
  }

  /** A first page and the listing of what it left make the listing of the whole. */
  lemma PageThenRest<T(!new)>(d: Direction, key: T -> Key, rows: set<T>, cursor: Option<Key>, limit: nat, page: Page<T>, rest: seq<T>)
    requires KeysDiffer(key, rows) && IsPage(d, key, rows, cursor, limit, page) && page.next.Some?
    requires IsTop(d, key, After(d, key, rows, page.next), |rest|, rest) && |rest| == |After(d, key, rows, page.next)|
    ensures var n := |page.items + rest|;
            n == |After(d, key, rows, cursor)| && IsTop(d, key, After(d, key, rows, cursor), n, page.items + rest)
    ensures rest != []
  {
    var after := After(d, key, rows, cursor);
    NextCursorLeavesRest(d, key, rows, cursor, limit, page);
    TopsConcatenate(d, key, after, page.items, |rest|, rest);
    var x :| x in after && x !in page.items;
    assert x in Rest(after, page.items);
    TopCount(d, key, after, limit, page.items);
    assert after == Rest(after, page.items) + set y | y in page.items;
    DistinctCount(page.items, set y | y in page.items);
  }

  /** What the pages of a whole walk over a fixed table amount to. */
  ghost predicate IsListing<T(!new)>(d: Direction, key: T -> Key, rows: set<T>, limit: nat, pages: seq<Page<T>>) {
    var n := |rows|;
    && IsTop(d, key, rows, n, Items(pages)) && |Items(pages)| == n
    && if n == 0 then |pages| == 1 else Fills(limit, |pages|, n)
  }

  lemma {:induction false} FixedWalkLists<T(!new)>(d: Direction, key: T -> Key, limit: nat, rows: set<T>, tables: seq<set<T>>,
                                                       cursor: Option<Key>, pages: seq<Page<T>>)
    requires KeysDiffer(key, rows) && limit >= 1
    requires IsWalk(d, key, limit, tables, cursor, pages) && forall i | 0 <= i < |tables| :: tables[i] == rows
    ensures IsListing(d, key, After(d, key, rows, cursor), limit, pages)
    decreases |pages|
  {
    if |pages| == 1 {
      assert Items(pages[1..]) == [] && Items(pages) == pages[0].items;
      DistinctCount(pages[0].items, After(d, key, rows, cursor));
    } else {
      FixedWalkLists(d, key, limit, rows, tables[1..], pages[0].next, pages[1..]);
      OneMorePage(d, key, rows, cursor, limit, pages[0], pages[1..]);
      assert Items(pages) == pages[0].items + Items(pages[1..]);
    }
  }

  lemma OneMorePage<T(!new)>(d: Direction, key: T -> Key, rows: set<T>, cursor: Option<Key>, limit: nat, page: Page<T>, later: seq<Page<T>>)
    requires KeysDiffer(key, rows) && limit >= 1 && later != []
    requires IsPage(d, key, rows, cursor, limit, page) && page.next.Some?
    requires IsListing(d, key, After(d, key, rows, page.next), limit, later)
    ensures var all, items := After(d, key, rows, cursor), page.items + Items(later);
            IsTop(d, key, all, |all|, items) && |items| == |all| && Fills(limit, 1 + |later|, |all|)
  {
    PageThenRest(d, key, rows, cursor, limit, page, Items(later));
    NextCursorLeavesRest(d, key, rows, cursor, limit, page);
  }

  function FewestPages(n: nat, limit: nat): int
    requires limit > 0
  {
    if n == 0 then 1 else CeilDiv(n, limit)
  }

  /** On a table that stays fixed the pages concatenate to the whole sorted listing, in the fewest pages:
      `(n + limit - 1) / limit` of them, or one when there is nothing to list. */
  lemma FixedWalkIsTheListing<T(!new)>(d: Direction, key: T -> Key, limit: nat, rows: set<T>, tables: seq<set<T>>,
                                       cursor: Option<Key>, pages: seq<Page<T>>)
    requires KeysDiffer(key, rows) && limit >= 1
    requires IsWalk(d, key, limit, tables, cursor, pages) && forall i | 0 <= i < |tables| :: tables[i] == rows
    ensures var all, items := After(d, key, rows, cursor), Items(pages);
            IsTop(d, key, all, |all|, items) && |items| == |all| && |pages| == FewestPages(|all|, limit)
  {
    FixedWalkLists(d, key, limit, rows, tables, cursor, pages);
    var n := |After(d, key, rows, cursor)|;
    if n > 0 { FillsIsCeiling(limit, |pages|, n); }
  }

  lemma {:induction false} ChainGrows<T(!new)>(d: Direction, key: T -> Key, limit: nat, tables: seq<set<T>>, cursor: Option<Key>,
                                               pages: seq<Page<T>>, table: set<T>, page: Page<T>)
    requires IsChain(d, key, limit, tables, cursor, pages) && End(pages).Some?
    requires IsPage(d, key, table, End(pages), limit, page)
    ensures IsChain(d, key, limit, tables + [table], cursor, pages + [page])
    decreases |pages|
  {
    if |pages| == 1 {
      assert (tables + [table])[1..] == [table] && (pages + [page])[1..] == [page];
    } else {
      assert (tables + [table])[1..] == tables[1..] + [table] && (pages + [page])[1..] == pages[1..] + [page];
      ChainGrows(d, key, limit, tables[1..], pages[0].next, pages[1..], table, page);
    }
  }

  /** A client of a fixed table, from the first page until there is no cursor: it gets to the end. */
  method FollowCursors<T(==,!new)>(d: Direction, key: T -> Key, rows: set<T>, limit: nat) returns (pages: seq<Page<T>>)
    requires limit >= 1 && KeysDiffer(key, rows)
    ensures IsTop(d, key, rows, |rows|, Items(pages)) && |Items(pages)| == |rows|
    ensures |pages| == FewestPages(|rows|, limit)
  {
    var first := CutPage(d, key, rows, None, limit);
    pages := [first];
    ghost var tables := [rows];
    while End(pages).Some?
      invariant pages != [] && IsChain(d, key, limit, tables, None, pages)
      invariant forall i | 0 <= i < |tables| :: tables[i] == rows
      decreases End(pages).Some?, |After(d, key, rows, End(pages))|
    {
      pages, tables := NextPage(d, key, rows, limit, tables, pages);
    }
    FixedWalkIsTheListing(d, key, limit, rows, tables, None, pages);
    assert After(d, key, rows, None) == rows;
  }

  method NextPage<T(==,!new)>(d: Direction, key: T -> Key, rows: set<T>, limit: nat, ghost tables: seq<set<T>>, pages: seq<Page<T>>)
    returns (more: seq<Page<T>>, ghost longer: seq<set<T>>)
    requires limit >= 1 && KeysDiffer(key, rows)
    requires pages != [] && IsChain(d, key, limit, tables, None, pages) && End(pages).Some?
    ensures more != [] && longer == tables + [rows] && IsChain(d, key, limit, longer, None, more)
    ensures End(more).Some? ==> |After(d, key, rows, End(more))| < |After(d, key, rows, End(pages))|
  {
    var page := CutPage(d, key, rows, End(pages), limit);
    ChainGrows(d, key, limit, tables, None, pages, rows, page);
    if page.next.Some? { NextIsCloser(d, key, rows, End(pages), limit, page); }
    more, longer := pages + [page], tables + [rows];
  }

  lemma NextIsCloser<T(!new)>(d: Direction, key: T -> Key, rows: set<T>, cursor: Option<Key>, limit: nat, page: Page<T>)
    requires KeysDiffer(key, rows) && IsPage(d, key, rows, cursor, limit, page) && page.next.Some?
    ensures |After(d, key, rows, page.next)| < |After(d, key, rows, cursor)|
  {
    var last, after, rest := page.items[|page.items| - 1], After(d, key, rows, cursor), After(d, key, rows, page.next);
    assert last in after && last !in rest && rest <= after - {last} by { NextCursorLeavesRest(d, key, rows, cursor, limit, page); }
    assert last in after - rest && |after| == |after - rest| + |rest|;
  }
}
