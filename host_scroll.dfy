/**
 * The scroll-pagination loop of proxytool3.py that lists every Windows host
 * of the tenant.
 *
 * Each request asks for up to 5000 host ids and, from the second request on,
 * passes the cursor the previous response returned (when it is not empty).
 * Each response carries a page of ids, the next cursor and the total the
 * server reports. The ids are appended in order, and the loop stops as soon as
 * the number collected reaches the total of the latest response. The
 * responses are supplied as a finite sequence of pages; when the loop would
 * need one more page than supplied, the run has not finished within them.
 */
module HostScroll {
  import opened Wrappers

  /** The page size: the largest the devices-scroll query accepts. */
  const PageLimit := 5000

  /** The filter every query carries. */
  const PlatformFilter := "platform_name:'Windows'"

  /**
   * One decoded response. A readable one carries its resources, the cursor for
   * the next request (None when the server sends JSON null) and the reported
   * total; a response without meta.pagination.offset, resources or
   * meta.pagination.total (an error body, say) is Unreadable.
   */
  datatype Page =
    | Page(resources: seq<string>, offset: Option<string>, total: int)
    | Unreadable

  /** One query: the page size, the cursor if one is sent, and the filter. */
  datatype PageRequest = PageRequest(limit: int, offset: Option<string>, filter: string)

  /**
   * How the loop ended: with every host listed, still waiting for a page the
   * responses do not hold, or raising on a response it could not use.
   */
  datatype ScrollResult = Complete(hosts: seq<string>) | OutOfPages | Raised

  /** The ids a response contributes. */
  function Ids(page: Page): seq<string>
  {
    if page.Page? then page.resources else []
  }

  /** The ids of the given pages, page after page, each page's ids in its own order. */
  function Flatten(pages: seq<Page>): seq<string>
  {
    if pages == [] then [] else Flatten(pages[..|pages| - 1]) + Ids(pages[|pages| - 1])
  }

  /** The query sent with the cursor held by the loop; the offset parameter is added only when the cursor is not empty. */
  function CursorRequest(offset: string): PageRequest
  {
    PageRequest(PageLimit, if offset == "" then None else Some(offset), PlatformFilter)
  }

  /**
   * Query k (counting from 0) can be built: the first needs no cursor, and each
   * later one needs a readable previous response whose cursor is not null
   * (a null cursor makes building the next query raise).
   */
  predicate Sendable(pages: seq<Page>, k: nat)
    requires k <= |pages|
  {
    k == 0 || (pages[k - 1].Page? && pages[k - 1].offset.Some?)
  }

  /** The k-th query of the loop, counting from 0: its cursor is the one returned by the response to query k - 1. */
  function RequestFor(pages: seq<Page>, k: nat): (req: PageRequest)
    requires k <= |pages| && Sendable(pages, k)
    ensures req.limit == 5000 && req.filter == PlatformFilter
    ensures k == 0 ==> req.offset == None
    ensures 0 < k ==> (req.offset.None? <==> pages[k - 1].offset.value == "")
    ensures 0 < k && req.offset.Some? ==> req.offset.value == pages[k - 1].offset.value
  {
    CursorRequest(if k == 0 then "" else pages[k - 1].offset.value)
  }

  /** The first n queries of the loop, sent while the responses before them were usable. */
  function Queries(pages: seq<Page>, n: nat): (qs: seq<PageRequest>)
    requires n <= |pages| + 1 && (n == 0 || Usable(pages, n - 1))
    ensures |qs| == n
    ensures forall k :: 0 <= k < n ==> Sendable(pages, k) && qs[k] == RequestFor(pages, k)
  {
    if n == 0 then [] else Queries(pages, n - 1) + [RequestFor(pages, n - 1)]
  }

  /** The first n responses are all readable and carry a cursor that is not null. */
  predicate Usable(pages: seq<Page>, n: nat)
  {
    n <= |pages| && forall k :: 0 <= k < n ==> pages[k].Page? && pages[k].offset.Some?
  }

  /** After n responses, the n-th is readable and the ids collected reach the total it reports. */
  predicate Reached(pages: seq<Page>, n: nat)
  {
    1 <= n <= |pages| && pages[n - 1].Page? && |Flatten(pages[..n])| >= pages[n - 1].total
  }

  /** The loop ends after exactly n responses: the count first reaches the latest total there. */
  predicate FirstReached(pages: seq<Page>, n: nat)
  {
    Reached(pages, n) && forall m :: 1 <= m < n ==> !Reached(pages, m)
  }

  /** No response among the supplied ones ends the loop. */
  predicate NeverReached(pages: seq<Page>)
  {
    forall m :: 1 <= m <= |pages| ==> !Reached(pages, m)
  }

  /** The listing completes after n queries: every response up to the n-th is usable, and the n-th is the first to reach its total. */
  predicate Completes(pages: seq<Page>, n: nat)
  {
    1 <= n && Usable(pages, n - 1) && FirstReached(pages, n)
  }

  /** Every supplied response is usable and none reaches its total: the loop asks for one more. */
  predicate Exhausted(pages: seq<Page>)
  {
    Usable(pages, |pages|) && NeverReached(pages)
  }

  /**
   * The loop raises after n queries: the earlier responses were usable and
   * reached no total, and the n-th is unreadable, or it reaches no total and
   * carries a null cursor, so the next query cannot be built.
   */
  predicate Raises(pages: seq<Page>, n: nat)
  {
    && 1 <= n <= |pages| && Usable(pages, n - 1)
    && (forall m :: 1 <= m < n ==> !Reached(pages, m))
    && (pages[n - 1].Unreadable? || (pages[n - 1].offset.None? && !Reached(pages, n)))
  }

  /** The inner loop of the listing: each id of a page appended in turn. */
  method AppendIds(hosts: seq<string>, ids: seq<string>) returns (hosts': seq<string>)
    ensures hosts' == hosts + ids
  {
    hosts' := hosts;
    var j := 0;
    while j < |ids|
      invariant 0 <= j <= |ids|
      invariant hosts' == hosts + ids[..j]
    {
      hosts' := hosts' + [ids[j]];
      j := j + 1;
    }
    assert ids[..j] == ids;
  }

  /**
   * The body of the loop for response i, once query i is sent. An unreadable
   * response raises. Otherwise its ids are appended; the loop then stops if
   * the total is reached, raises if the cursor is null (the next query cannot
   * be built), and goes on with that cursor otherwise.
   */
  method TakePage(pages: seq<Page>, i: nat, hosts: seq<string>) returns (stop: Option<ScrollResult>, hosts': seq<string>)
    requires i < |pages| && Usable(pages, i) && hosts == Flatten(pages[..i])
    requires forall m :: 1 <= m <= i ==> !Reached(pages, m)
    ensures stop.Some? ==> !stop.value.OutOfPages?
    ensures stop == Some(Raised) ==> Raises(pages, i + 1)
    ensures stop.Some? && stop.value.Complete? ==>
      Completes(pages, i + 1) && stop.value.hosts == Flatten(pages[..i + 1])
    ensures stop.None? ==> Usable(pages, i + 1) && hosts' == Flatten(pages[..i + 1]) && !Reached(pages, i + 1)
  {
    hosts' := hosts;
    var page := pages[i];
    if page.Unreadable? {
      // reading a missing field of the response raises
      return Some(Raised), hosts';
    }
    hosts' := AppendIds(hosts', page.resources);
    PageConsumed(pages, i);
    if |hosts'| >= page.total {
      return Some(Complete(hosts')), hosts';
    }
    if page.offset.None? {
      // the next query would join a null cursor into its URL, which raises
      return Some(Raised), hosts';
    }
    stop := None;
  }

  /**
   * The pagination loop. It returns how it ended and the queries it sent, in
   * order. It completes exactly at the first response whose total is reached,
   * with the ids of the pages consumed, in order; it raises at the first
   * unreadable response or null cursor before that; and it runs out of pages
   * only when every supplied response is usable and none reaches its total.
   */
  method FetchAllHosts(pages: seq<Page>) returns (result: ScrollResult, requests: seq<PageRequest>)
    ensures 1 <= |requests| <= |pages| + 1
    ensures forall k :: 0 <= k < |requests| ==> Sendable(pages, k) && requests[k] == RequestFor(pages, k)
    ensures result.Complete? ==>
      Completes(pages, |requests|) && result.hosts == Flatten(pages[..|requests|])
    ensures result.OutOfPages? ==> Exhausted(pages) && |requests| == |pages| + 1
    ensures result.Raised? ==> Raises(pages, |requests|)
  {
    var offset := "";
    var hosts: seq<string> := [];
    requests := [];
    var i := 0;
    while true
      invariant i == |requests| <= |pages|
      invariant Usable(pages, i)
      invariant offset == if i == 0 then "" else pages[i - 1].offset.value
      invariant hosts == Flatten(pages[..i])
      invariant requests == Queries(pages, i)
      invariant forall m :: 1 <= m <= i ==> !Reached(pages, m)
      decreases |pages| - i
    {
      requests := requests + [CursorRequest(offset)];
      assert requests == Queries(pages, i + 1);
      if i == |pages| {
        result := OutOfPages;
        return;
      }
      var stop;
      stop, hosts := TakePage(pages, i, hosts);
      if stop.Some? {
        result := stop.value;
        return;
      }
      offset := pages[i].offset.value;
      i := i + 1;
    }
  }

  /** Consuming the readable response i appends its ids to those of the first i. */
  lemma PageConsumed(pages: seq<Page>, i: nat)
    requires i < |pages| && pages[i].Page?
    ensures Flatten(pages[..i + 1]) == Flatten(pages[..i]) + pages[i].resources
  {
    assert pages[..i + 1][..i] == pages[..i];
  }

  /**
   * The responses decide how the listing ends: it completes or raises after
   * one number of queries only, never both, and never when it would run out
   * of pages instead.
   */
  lemma ListingOutcomeUnique(pages: seq<Page>, n: nat, m: nat)
    requires Completes(pages, n) || Raises(pages, n)
    requires Completes(pages, m) || Raises(pages, m)
    ensures n == m
    ensures !(Completes(pages, n) && Raises(pages, n))
    ensures !Exhausted(pages)
  {
  }

  lemma {:induction false} FlattenAppend(a: seq<Page>, b: seq<Page>)
    ensures Flatten(a + b) == Flatten(a) + Flatten(b)
    decreases |b|
  {
    if b != [] {
      var b' := b[..|b| - 1];
      assert (a + b)[..|a + b| - 1] == a + b';
      FlattenAppend(a, b');
    } else {
      assert a + b == a;
    }
  }

  /** The hosts collected after m responses are never changed by later ones: they stay a prefix. */
  lemma EarlierHostsKept(pages: seq<Page>, m: nat, n: nat)
    requires m <= n <= |pages|
    ensures Flatten(pages[..m]) <= Flatten(pages[..n])
    ensures |Flatten(pages[..n])| == |Flatten(pages[..m])| + |Flatten(pages[m..n])|
  {
    assert pages[..n] == pages[..m] + pages[m..n];
    FlattenAppend(pages[..m], pages[m..n]);
  }

  /**
   * The loop has no guard against a page without ids: when such a page
   * arrives before the total is reached and the total stays the same, the
   * loop does not stop there either.
   */
  lemma EmptyPageNeverStops(pages: seq<Page>, n: nat)
    requires 1 <= n < |pages| && !Reached(pages, n)
    requires pages[n].Page? && pages[n - 1].Page?
    requires pages[n].resources == [] && pages[n].total == pages[n - 1].total
    ensures !Reached(pages, n + 1)
  {
    assert pages[..n + 1][..n] == pages[..n];
  }

  /**
   * The pages a server sends for a collection of `items` cut into pages of
   * `size` ids, each page reporting `total` and carrying `cursor`.
   */
  function ServedPages(items: seq<string>, size: nat, total: int, cursor: string): (pages: seq<Page>)
    requires 0 < size
    ensures 1 <= |pages|
    decreases |items|
  {
    if |items| <= size then [Page(items, Some(cursor), total)]
    else [Page(items[..size], Some(cursor), total)] + ServedPages(items[size..], size, total, cursor)
  }

  lemma FlattenSingle(page: Page)
    ensures Flatten([page]) == Ids(page)
  {
    assert [page][..0] == [];
  }

  lemma {:induction false} ServedPagesFlatten(items: seq<string>, size: nat, total: int, cursor: string)
    requires 0 < size
    ensures Flatten(ServedPages(items, size, total, cursor)) == items
    decreases |items|
  {
    var pages := ServedPages(items, size, total, cursor);
    if |items| <= size {
      FlattenSingle(Page(items, Some(cursor), total));
    } else {
      var first := [Page(items[..size], Some(cursor), total)];
      var rest := ServedPages(items[size..], size, total, cursor);
      FlattenAppend(first, rest);
      FlattenSingle(first[0]);
      assert first == [first[0]];
      ServedPagesFlatten(items[size..], size, total, cursor);
      assert items == items[..size] + items[size..];
    }
  }

  /** Every proper prefix of the served pages holds fewer ids than the collection. */
  lemma {:induction false} ServedPrefixShort(items: seq<string>, size: nat, total: int, cursor: string, n: nat)
    requires 0 < size
    requires 1 <= n < |ServedPages(items, size, total, cursor)|
    ensures |Flatten(ServedPages(items, size, total, cursor)[..n])| < |items|
    decreases |items|
  {
    var pages := ServedPages(items, size, total, cursor);
    var first := [Page(items[..size], Some(cursor), total)];
    var rest := ServedPages(items[size..], size, total, cursor);
    assert pages == first + rest;
    assert pages[..n] == first + rest[..n - 1];
    FlattenAppend(first, rest[..n - 1]);
    FlattenSingle(first[0]);
    assert first == [first[0]];
    if n > 1 {
      ServedPrefixShort(items[size..], size, total, cursor, n - 1);
    }
  }

  /** The number of pages is the ceiling of N / size: the last page is the first whose end reaches N. */
  lemma {:induction false} ServedPageCount(items: seq<string>, size: nat, total: int, cursor: string)
    requires 0 < size
    ensures var count := |ServedPages(items, size, total, cursor)|;
      (count - 1) * size < |items| <= count * size || (|items| == 0 && count == 1)
    decreases |items|
  {
    if |items| > size {
      var rest := |ServedPages(items[size..], size, total, cursor)|;
      ServedPageCount(items[size..], size, total, cursor);
      assert (rest + 1) * size == rest * size + size;
      assert rest * size == (rest - 1) * size + size;
    }
  }

  /**
   * Pagination completeness: for a collection of N ids served in pages of
   * `size`, each reporting N as the total, the loop stops after the last
   * page, which is page ceil(N / size) (one request when N is 0), and the
   * ids collected are exactly the collection, in order.
   */
  lemma ScrollOfServedPages(items: seq<string>, size: nat, cursor: string)
    requires 0 < size
    ensures var pages := ServedPages(items, size, |items|, cursor);
      && Completes(pages, |pages|)
      && Flatten(pages[..|pages|]) == items
      && ((|pages| - 1) * size < |items| <= |pages| * size || (|items| == 0 && |pages| == 1))
  {
    var pages := ServedPages(items, size, |items|, cursor);
    ServedPagesFlatten(items, size, |items|, cursor);
    ServedPageCount(items, size, |items|, cursor);
    ServedTotals(items, size, |items|, cursor);
    assert pages[..|pages|] == pages;
    assert Usable(pages, |pages| - 1);
    assert Reached(pages, |pages|);
    forall m | 1 <= m < |pages| ensures !Reached(pages, m) {
      ServedPrefixShort(items, size, |items|, cursor, m);
    }
  }

  /** A readable page carrying the given cursor and reported total. */
  predicate ServedWith(page: Page, cursor: string, total: int)
  {
    page.Page? && page.offset == Some(cursor) && page.total == total
  }

  lemma {:induction false} ServedTotals(items: seq<string>, size: nat, total: int, cursor: string)
    requires 0 < size
    ensures forall k :: 0 <= k < |ServedPages(items, size, total, cursor)| ==>
      ServedWith(ServedPages(items, size, total, cursor)[k], cursor, total)
    decreases |items|
  {
    var pages := ServedPages(items, size, total, cursor);
    if |items| > size {
      var rest := ServedPages(items[size..], size, total, cursor);
      ServedTotals(items[size..], size, total, cursor);
      assert pages == [Page(items[..size], Some(cursor), total)] + rest;
      forall k | 1 <= k < |pages| ensures ServedWith(pages[k], cursor, total) {
        assert pages[k] == rest[k - 1];
      }
    } else {
      assert pages == [Page(items, Some(cursor), total)];
    }
  }

  /** The 12000-host tenant read 5000 at a time: three pages of 5000, 5000 and 2000 ids. */
  lemma TwelveThousandHosts(items: seq<string>, cursor: string)
    requires |items| == 12000
    ensures var pages := ServedPages(items, PageLimit, 12000, cursor);
      && |pages| == 3 && Completes(pages, 3) && Flatten(pages) == items
      && |Ids(pages[0])| == 5000 && |Ids(pages[1])| == 5000 && |Ids(pages[2])| == 2000
  {
    ScrollOfServedPages(items, PageLimit, cursor);
    var pages := ServedPages(items, PageLimit, 12000, cursor);
    var second := ServedPages(items[5000..], PageLimit, 12000, cursor);
    var third := ServedPages(items[5000..][5000..], PageLimit, 12000, cursor);
    assert third == [Page(items[5000..][5000..], Some(cursor), 12000)];
    assert second == [Page(items[5000..][..5000], Some(cursor), 12000)] + third;
    assert pages == [Page(items[..5000], Some(cursor), 12000)] + second;
    assert pages[..3] == pages;
  }
}
