/** Service accounts are paged with a cursor taken from the row the page drops. */
module ServiceAccountWalk {
  import opened Counting
  import opened Keyset
  import opened Paging
  import opened Listings

  datatype Account = Account(id: Id, org: Id, name: string, createdAt: Time)

  function AccountKey(a: Account): Key {
    Key(a.createdAt, a.id)
  }

  function AccountsOf(accounts: set<Account>, org: Id): set<Account> {
    set a | a in accounts && a.org == org
  }

  ghost predicate Fetches(rows: set<Account>, cursor: Option<Key>, n: nat, fetched: seq<Account>) {
    IsTop(Ascending, AccountKey, After(Ascending, AccountKey, rows, cursor), n, fetched)
  }

  /** The extra row is dropped from the page and becomes its cursor. */
  function PopExtra(fetched: seq<Account>, limit: nat): Page<Account> {
    if |fetched| > limit then Page(fetched[..limit], Some(AccountKey(fetched[limit]))) else Page(fetched, None)
  }

  ghost predicate IsAccountPage(rows: set<Account>, cursor: Option<Key>, limit: nat, page: Page<Account>) {
    exists fetched :: Fetches(rows, cursor, limit + 1, fetched) && page == PopExtra(fetched, limit)
  }

  method ListServiceAccounts(accounts: set<Account>, org: Id, limit: nat, cursor: Option<Key>) returns (page: Page<Account>)
    ensures IsAccountPage(AccountsOf(accounts, org), cursor, Clamp(limit, 1, 200), page)
    ensures DropsAndPointsAtExtra(accounts, org, Clamp(limit, 1, 200), cursor, page)
  {
    var size := Clamp(limit, 1, 200);
    var items := OrderByLimit(Ascending, AccountKey, After(Ascending, AccountKey, AccountsOf(accounts, org), cursor), size + 1);
    if |items| > size {
      var extra := items[|items| - 1];
      page := Page(items[..|items| - 1], Some(AccountKey(extra)));
    } else {
      page := Page(items, None);
    }
    assert Fetches(AccountsOf(accounts, org), cursor, size + 1, items) && page == PopExtra(items, size);
    ExtraIsDropped(accounts, org, size, cursor, items, page);
  }

  predicate IsMine(a: Account, org: Id, cursor: Option<Key>) {
    a.org == org && BeyondCursor(false, a.createdAt, a.id, cursor)
  }

  /** The page on the rows' own columns: accounts of the organisation past the cursor, oldest first; all of them
      when there is no next cursor, else `size` of them and the cursor names one that is not on the page. */
  ghost predicate DropsAndPointsAtExtra(accounts: set<Account>, org: Id, size: nat, cursor: Option<Key>, page: Page<Account>) {
    && |page.items| <= size && (forall a <- page.items :: a in accounts && IsMine(a, org, cursor))
    && (forall i, j | 0 <= i < j < |page.items| ::
          !Beyond(false, page.items[i].createdAt, page.items[i].id, page.items[j].createdAt, page.items[j].id))
    && (page.next.None? <==> forall a | a in accounts && IsMine(a, org, cursor) :: a in page.items)
    && (page.next.Some? ==>
          |page.items| == size && exists a | a in accounts && IsMine(a, org, cursor) ::
            a !in page.items && page.next.value.at == a.createdAt && page.next.value.id == a.id)
  }

  lemma ExtraIsDropped(accounts: set<Account>, org: Id, size: nat, cursor: Option<Key>, fetched: seq<Account>, page: Page<Account>)
    requires Fetches(AccountsOf(accounts, org), cursor, size + 1, fetched) && page == PopExtra(fetched, size)
    ensures DropsAndPointsAtExtra(accounts, org, size, cursor, page)
  {
    var after := After(Ascending, AccountKey, AccountsOf(accounts, org), cursor);
    forall a ensures a in after <==> a in accounts && IsMine(a, org, cursor) {
    }
    if |fetched| > size {
      assert fetched[size] in after && fetched[size] !in page.items;
    }
  }

  ghost predicate IsAccountWalk(rows: set<Account>, limit: nat, cursor: Option<Key>, pages: seq<Page<Account>>)
    decreases |pages|
  {
    && pages != [] && IsAccountPage(rows, cursor, limit, pages[0])
    && if |pages| == 1 then pages[0].next.None?
       else pages[0].next.Some? && IsAccountWalk(rows, limit, pages[0].next, pages[1..])
  }

  /** The listing with every `limit + 1`-th account left out: `keep` more are kept, the next one is
      dropped, then `limit` are kept again. */
  function Thinned(listing: seq<Account>, limit: nat, keep: nat): seq<Account> {
    if listing == [] then []
    else if keep == 0 then Thinned(listing[1..], limit, limit)
    else [listing[0]] + Thinned(listing[1..], limit, keep - 1)
  }

  lemma {:induction false} ThinnedBlock(listing: seq<Account>, limit: nat, keep: nat)
    ensures Thinned(listing, limit, keep) ==
            if |listing| <= keep then listing else listing[..keep] + Thinned(listing[keep + 1..], limit, limit)
    decreases keep
  {
    if listing != [] && keep > 0 {
      ThinnedBlock(listing[1..], limit, keep - 1);
      if |listing| > keep {
        assert listing[..keep] == [listing[0]] + listing[1..][..keep - 1];
        assert listing[1..][keep..] == listing[keep + 1..];
      }
    }
  }

  /** `listing` is the rows, all of them, in order. */
  ghost predicate IsListing(rows: set<Account>, listing: seq<Account>) {
    && (forall i | 0 <= i < |listing| :: listing[i] in rows) && (forall x | x in rows :: x in listing)
    && forall i, j | 0 <= i < j < |listing| :: Precedes(AccountKey(listing[i]), AccountKey(listing[j]))
  }

  function Front(listing: seq<Account>, n: nat): seq<Account> {
    if |listing| <= n then listing else listing[..n]
  }

  lemma FrontIsTop(rows: set<Account>, listing: seq<Account>, n: nat)
    requires IsListing(rows, listing)
    ensures IsTop(Ascending, AccountKey, rows, n, Front(listing, n))
  {
    var front := Front(listing, n);
    forall k | 0 <= k < |front| ensures listing[k] in front { assert front[k] == listing[k]; }
    forall x | x in rows && x !in front
      ensures |front| == n && forall i | 0 <= i < n :: !Before(Ascending, AccountKey(x), AccountKey(front[i]))
    {
      var k :| 0 <= k < |listing| && listing[k] == x;
    }
  }

  lemma ListingKeysDiffer(rows: set<Account>, listing: seq<Account>)
    requires IsListing(rows, listing)
    ensures KeysDiffer(AccountKey, rows)
  {
    forall x, y | x in rows && y in rows && AccountKey(x) == AccountKey(y) ensures x == y {
      var i :| 0 <= i < |listing| && listing[i] == x;
      var j :| 0 <= j < |listing| && listing[j] == y;
    }
  }

  /** A query on listed rows answers with a front of the listing. */
  lemma FetchIsFront(rows: set<Account>, listing: seq<Account>, n: nat, fetched: seq<Account>)
    requires IsListing(rows, listing) && IsTop(Ascending, AccountKey, rows, n, fetched)
    ensures fetched == Front(listing, n)
  {
    FrontIsTop(rows, listing, n);
    ListingKeysDiffer(rows, listing);
    TopIsUnique(Ascending, AccountKey, rows, n, fetched, Front(listing, n));
  }

  /** The rows after a listed one are the rest of the listing. */
  lemma RestIsListing(rows: set<Account>, cursor: Option<Key>, listing: seq<Account>, k: nat)
    requires IsListing(After(Ascending, AccountKey, rows, cursor), listing) && k < |listing|
    ensures IsListing(After(Ascending, AccountKey, rows, Some(AccountKey(listing[k]))), listing[k + 1..])
  {
    var before, after := After(Ascending, AccountKey, rows, cursor), After(Ascending, AccountKey, rows, Some(AccountKey(listing[k])));
    assert listing[k] in before;
    forall x | x in after ensures x in listing[k + 1..] {
      assert x in before;
      var i :| 0 <= i < |listing| && listing[i] == x;
      assert listing[k + 1..][i - k - 1] == x;
    }
  }

  lemma PageIsFront(rows: set<Account>, limit: nat, cursor: Option<Key>, listing: seq<Account>, page: Page<Account>)
    requires IsListing(After(Ascending, AccountKey, rows, cursor), listing)
    requires IsAccountPage(rows, cursor, limit, page)
    ensures page == if |listing| <= limit then Page(listing, None) else Page(listing[..limit], Some(AccountKey(listing[limit])))
  {
    var fetched :| Fetches(rows, cursor, limit + 1, fetched) && page == PopExtra(fetched, limit);
    FetchIsFront(After(Ascending, AccountKey, rows, cursor), listing, limit + 1, fetched);
    if |listing| > limit {
      assert fetched[..limit] == listing[..limit] && fetched[limit] == listing[limit];
    }
  }

  lemma {:induction false} WalkIsThinned(rows: set<Account>, limit: nat, cursor: Option<Key>, listing: seq<Account>, pages: seq<Page<Account>>)
    requires IsListing(After(Ascending, AccountKey, rows, cursor), listing)
    requires IsAccountWalk(rows, limit, cursor, pages)
    ensures Items(pages) == Thinned(listing, limit, limit)
    decreases |pages|
  {
    var rest := Items(pages[1..]);
    PageIsFront(rows, limit, cursor, listing, pages[0]);
    ThinnedBlock(listing, limit, limit);
    if |pages| == 1 {
      assert rest == [];
    } else {
      RestIsListing(rows, cursor, listing, limit);
      WalkIsThinned(rows, limit, pages[0].next, listing[limit + 1..], pages[1..]);
    }
    assert Items(pages) == pages[0].items + rest;
  }

  lemma {:induction false} ThinnedLength(listing: seq<Account>, limit: nat)
    requires limit >= 1
    ensures |Thinned(listing, limit, limit)| == |listing| - Whole(|listing|, limit + 1)
    decreases |listing|
  {
    ThinnedBlock(listing, limit, limit);
    if |listing| > limit {
      ThinnedLength(listing[limit + 1..], limit);
    }
  }

  /** Which rows go: row `i` of the walk lies `i / limit` places further on in the listing (`Whole` is
      the quotient). */
  lemma {:induction false} ThinnedPosition(listing: seq<Account>, limit: nat, i: nat)
    requires limit >= 1 && i < |Thinned(listing, limit, limit)|
    ensures i + Whole(i, limit) < |listing| && Thinned(listing, limit, limit)[i] == listing[i + Whole(i, limit)]
    decreases |listing|
  {
    ThinnedBlock(listing, limit, limit);
    if i >= limit {
      ThinnedPosition(listing[limit + 1..], limit, i - limit);
    }
  }

  /** `walk` is the listing without every `limit + 1`-th row. */
  ghost predicate SkipsRows(listing: seq<Account>, limit: nat, walk: seq<Account>)
    requires limit >= 1
  {
    && |walk| == |listing| - Whole(|listing|, limit + 1)
    && forall i | 0 <= i < |walk| :: i + Whole(i, limit) < |listing| && walk[i] == listing[i + Whole(i, limit)]
  }

  lemma ThinnedSkipsRows(listing: seq<Account>, limit: nat)
    requires limit >= 1
    ensures SkipsRows(listing, limit, Thinned(listing, limit, limit))
    ensures Thinned(listing, limit, limit) == listing <==> |listing| <= limit
  {
    var walk := Thinned(listing, limit, limit);
    ThinnedLength(listing, limit);
    if |listing| <= limit { ThinnedBlock(listing, limit, limit); }
    forall i | 0 <= i < |walk|
      ensures i + Whole(i, limit) < |listing| && walk[i] == listing[i + Whole(i, limit)]
    {
      ThinnedPosition(listing, limit, i);
    }
  }

  /** Row `i` of the walk is row `i + skipped` of the listing. */
  predicate IsShifted(listing: seq<Account>, walk: seq<Account>, i: nat, skipped: int) {
    i < |walk| && 0 <= i + skipped < |listing| && walk[i] == listing[i + skipped]
  }

  /** Following the cursors on a fixed table skips one account per full page, so the walk is complete if and
      only if everything fits on the first page. */
  lemma AccountWalkSkipsRows(rows: set<Account>, listing: seq<Account>, limit: nat, pages: seq<Page<Account>>)
    requires limit >= 1 && IsListing(rows, listing) && IsAccountWalk(rows, limit, None, pages)
    ensures |Items(pages)| == |listing| - |listing| / (limit + 1)
    ensures forall i: nat | i < |Items(pages)| :: IsShifted(listing, Items(pages), i, i / limit)
    ensures Items(pages) == listing <==> |listing| <= limit
  {
    assert After(Ascending, AccountKey, rows, None) == rows;
    WalkIsThinned(rows, limit, None, listing, pages);
    ThinnedSkipsRows(listing, limit);
    SkipsAreQuotients(listing, limit, Items(pages));
  }

  lemma SkipsAreQuotients(listing: seq<Account>, limit: nat, walk: seq<Account>)
    requires limit >= 1 && SkipsRows(listing, limit, walk)
    ensures |walk| == |listing| - |listing| / (limit + 1)
    ensures forall i: nat | i < |walk| :: IsShifted(listing, walk, i, i / limit)
  {
    WholeIsQuotient(|listing|, limit + 1);
    forall i: nat | i < |walk| ensures IsShifted(listing, walk, i, i / limit) {
      WholeIsQuotient(i, limit);
    }
  }
}
