/** The pagination loop shared by the five `list_*` calls (src/adapters/connectors/github/client.py). */
module Pagination {
  import opened Basics
  import Publishing

  const MAX_PAGES := 30

  /** What a listing comes to: items, a request that fails (status, transport or payload shape), or a call
      refused before any request. */
  datatype Listing<T> = Got(items: seq<T>, requests: nat) | Failed(page: nat, requests: nat) | BadArgument

  /** Pages from `page` on: stops at a short page, a failure or the cap. */
  function Walk<T>(fetch: nat -> Option<seq<T>>, perPage: nat, page: nat): Listing<T>
    decreases MAX_PAGES + 1 - page
  {
    if page > MAX_PAGES then Got([], 0)
    else if fetch(page).None? then Failed(page, 1)
    else if |fetch(page).value| < perPage then Got(fetch(page).value, 1)
    else Ahead(fetch(page).value, 1, Walk(fetch, perPage, page + 1))
  }

  /** What a walk comes to when `done` was gathered before with `n` requests. */
  function Ahead<T>(done: seq<T>, n: nat, rest: Listing<T>): Listing<T> {
    match rest
    case Got(items, k) => Got(done + items, n + k)
    case Failed(page, k) => Failed(page, n + k)
    case BadArgument => BadArgument
  }

  lemma AheadTwice<T>(xs: seq<T>, m: nat, ys: seq<T>, n: nat, rest: Listing<T>)
    ensures Ahead(xs, m, Ahead(ys, n, rest)) == Ahead(xs + ys, m + n, rest)
    ensures Ahead([], 0, rest) == rest
  {
    if rest.Got? {
      assert xs + (ys + rest.items) == xs + ys + rest.items;
      assert [] + rest.items == rest.items;
    }
  }

  /** A listing; `argumentsOk` is the check of the other arguments (a positive run id, a nonblank ref). */
  method List<T>(argumentsOk: bool, perPage: int, fetch: nat -> Option<seq<T>>) returns (listing: Listing<T>)
    ensures listing == if argumentsOk && 1 <= perPage <= 100 then Walk(fetch, perPage, 1) else BadArgument
  {
    if !argumentsOk || !(1 <= perPage <= 100) {
      return BadArgument;
    }
    hide Page;
    var results: seq<T> := [];
    var page := 1;
    ghost var whole := Walk(fetch, perPage, page);
    AheadTwice([], 0, [], 0, whole);
    while page <= MAX_PAGES
      invariant 1 <= page <= MAX_PAGES + 1
      invariant whole == Ahead(results, page - 1, Walk(fetch, perPage, page))
    {
      var items := fetch(page);
      if items.None? {
        assert Walk(fetch, perPage, page) == Failed(page, 1);
        return Failed(page, page);
      }
      if |items.value| < perPage {
        assert Walk(fetch, perPage, page) == Got(items.value, 1);
        return Got(results + items.value, page);
      }
      AheadTwice(results, page - 1, items.value, 1, Walk(fetch, perPage, page + 1));
      results := results + items.value;
      assert whole == Ahead(results, page, Walk(fetch, perPage, page + 1));
      page := page + 1;
    }
    assert results + [] == results;
    return Got(results, MAX_PAGES);
  }

  // A paged server

  function Min(a: nat, b: nat): nat {
    if a <= b then a else b
  }

  /** k * p and n / p, spelled out in steps. */
  function Times(k: nat, p: nat): nat {
    if k == 0 then 0 else Times(k - 1, p) + p
  }

  function FullPages(n: nat, p: nat): nat
    requires p >= 1
  {
    if n < p then 0 else FullPages(n - p, p) + 1
  }

  lemma {:induction false} TimesIs(k: nat, p: nat)
    ensures Times(k, p) == k * p
  {
    if k > 0 {
      TimesIs(k - 1, p);
      Distribute(k - 1, p);
    }
  }

  lemma {:induction false} FullPagesIs(n: nat, p: nat)
    requires p >= 1
    ensures FullPages(n, p) == n / p
  {
    if n < p {
      Quotient(n, p, 0, n);
    } else {
      FullPagesIs(n - p, p);
      var q, r := (n - p) / p, (n - p) % p;
      assert n - p == p * q + r;
      Distribute(q, p);
      Quotient(n, p, q + 1, r);
    }
  }

  lemma Distribute(k: int, p: int)
    ensures (k + 1) * p == k * p + p
    ensures p * (k + 1) == p * k + p
  {
  }

  lemma Quotient(n: nat, p: nat, q: nat, r: nat)
    requires r < p && n == p * q + r
    ensures n / p == q
  {
    var q', r' := n / p, n % p;
    assert n == p * q' + r';
    Difference(p, q, q');
    if q' != q {
      Multiple(p, q' - q);
    }
  }

  lemma Difference(p: int, a: int, b: int)
    ensures p * (b - a) == p * b - p * a
  {
  }

  lemma Monotone(p: int, a: int, b: int)
    requires p >= 0 && a <= b
    ensures p * a <= p * b
  {
  }

  lemma Multiple(p: int, d: int)
    requires p >= 1 && d != 0
    ensures p * d >= p || p * d <= -p
  {
    if d > 0 {
      Monotone(p, 1, d);
    } else {
      Monotone(p, d, -1);
    }
  }

  /** Page `page` (from 1) of a server that holds `items`. */
  function Page<T>(items: seq<T>, perPage: nat, page: nat): seq<T>
    requires page >= 1
  {
    var start := Times(page - 1, perPage);
    if start >= |items| then [] else items[start..Min(start + perPage, |items|)]
  }

  function ServerOf<T>(items: seq<T>, perPage: nat): nat -> Option<seq<T>> {
    (page: nat) => if page == 0 then None else Some(Page(items, perPage, page))
  }

  /** What the walk yields from `start` on when `left` pages are allowed. */
  function Yield<T>(items: seq<T>, perPage: nat, start: nat, left: nat): Listing<T>
    requires perPage >= 1 && start <= |items|
  {
    Got(items[start..Min(|items|, start + Times(left, perPage))], Min(left, FullPages(|items| - start, perPage) + 1))
  }

  lemma YieldNothing<T>(items: seq<T>, perPage: nat, start: nat)
    requires perPage >= 1 && start <= |items|
    ensures Yield(items, perPage, start, 0) == Got([], 0)
  {
  }

  lemma YieldShort<T>(items: seq<T>, perPage: nat, start: nat, left: nat)
    requires perPage >= 1 && start <= |items| < start + perPage && left >= 1
    ensures Yield(items, perPage, start, left) == Got(items[start..], 1)
  {
  }

  lemma YieldFull<T>(items: seq<T>, perPage: nat, start: nat, left: nat)
    requires perPage >= 1 && start + perPage <= |items| && left >= 1
    ensures Yield(items, perPage, start, left)
         == Ahead(items[start..start + perPage], 1, Yield(items, perPage, start + perPage, left - 1))
  {
    var next, end := start + perPage, Min(|items|, start + Times(left, perPage));
    assert end == Min(|items|, next + Times(left - 1, perPage));
    assert items[start..end] == items[start..next] + items[next..end];
  }

  lemma PageIs<T>(items: seq<T>, perPage: nat, page: nat, start: nat)
    requires page >= 1 && start == Times(page - 1, perPage) && start <= |items|
    ensures Page(items, perPage, page) == items[start..Min(start + perPage, |items|)]
  {
  }

  lemma {:induction false} WalkFrom<T>(items: seq<T>, perPage: nat, page: nat, start: nat, left: nat,
      fetch: nat -> Option<seq<T>>)
    requires perPage >= 1 && 1 <= page <= MAX_PAGES + 1 && left == MAX_PAGES + 1 - page
    requires start == Times(page - 1, perPage) && start <= |items|
    requires forall k :: k >= 1 ==> fetch(k) == Some(Page(items, perPage, k))
    ensures Walk(fetch, perPage, page) == Yield(items, perPage, start, left)
    decreases left
  {
    hide Page, Yield;
    if left == 0 {
      YieldNothing(items, perPage, start);
    } else if |items| < start + perPage {
      PageIs(items, perPage, page, start);
      assert fetch(page).value == items[start..];
      YieldShort(items, perPage, start, left);
    } else {
      PageIs(items, perPage, page, start);
      assert fetch(page).value == items[start..start + perPage];
      YieldFull(items, perPage, start, left);
      WalkFrom(items, perPage, page + 1, start + perPage, left - 1, fetch);
    }
  }

  /** Against a server that holds N items, a listing returns exactly the first min(N, 30p) of them, in order,
      with exactly min(30, N/p + 1) requests: one more than the full pages, up to the cap. */
  lemma ListingIsPrefix<T>(items: seq<T>, perPage: nat)
    requires 1 <= perPage <= 100
    ensures Walk(ServerOf(items, perPage), perPage, 1)
         == Got(items[..Min(|items|, MAX_PAGES * perPage)], Min(MAX_PAGES, |items| / perPage + 1))
  {
    WalkFrom(items, perPage, 1, 0, MAX_PAGES, ServerOf(items, perPage));
    TimesIs(MAX_PAGES, perPage);
    FullPagesIs(|items|, perPage);
    assert items[0..Min(|items|, MAX_PAGES * perPage)] == items[..Min(|items|, MAX_PAGES * perPage)];
  }

  /** With the default page size the walk sees what publishing takes a listing to be. */
  lemma DefaultListingIsListed<T>(items: seq<T>)
    ensures Walk(ServerOf(items, 100), 100, 1) == Got(Publishing.Listed(items), Min(MAX_PAGES, |items| / 100 + 1))
  {
    ListingIsPrefix(items, 100);
    assert items[..Min(|items|, 3000)] == Publishing.Listed(items);
  }

  /** A listing fails exactly when one of the pages it asks for fails: the ones before were all full. */
  lemma {:induction false} FailsIff<T>(fetch: nat -> Option<seq<T>>, perPage: nat, page: nat)
    requires 1 <= page <= MAX_PAGES + 1
    ensures Walk(fetch, perPage, page).Failed?
            <==> exists k :: page <= k <= MAX_PAGES && fetch(k).None? && AllFull(fetch, perPage, page, k)
    decreases MAX_PAGES + 1 - page
  {
    if page <= MAX_PAGES {
      FailsIff(fetch, perPage, page + 1);
      assert AllFull(fetch, perPage, page, page);
      if fetch(page).Some? {
        forall k | page < k <= MAX_PAGES
          ensures AllFull(fetch, perPage, page, k)
                  <==> |fetch(page).value| >= perPage && AllFull(fetch, perPage, page + 1, k)
        {
        }
      }
    }
  }

  ghost predicate AllFull<T>(fetch: nat -> Option<seq<T>>, perPage: nat, page: nat, k: nat) {
    forall j :: page <= j < k ==> fetch(j).Some? && |fetch(j).value| >= perPage
  }
}
