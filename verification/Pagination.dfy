/** The page loop that reads a whole server-side listing. The three paginators of the
    helper differ only in the element and parameter types, so one generic loop models
    them; `fetch` is the closure they are given, as a step of the remote state. */
module Pagination {
  import opened Forest
  import opened Listings
  import opened Sequences
  import opened Wrappers

  const PAGE_SIZE := 100

  /** Query parameters: the paging pair, and one field the loop must pass through. */
  datatype Params = Params(first: Option<int>, max: Option<int>, search: Option<string>)

  /** One call: the state afterwards and the reply. */
  type Fetch<!S, !T> = (S, Params) -> (S, Result<seq<T>, Error>)

  /** The state behind an API. Only calls change it. */
  class Remote<S> {
    var state: S

    constructor (state: S)
      ensures this.state == state
    {
      this.state := state;
    }
  }

  function Page<T>(xs: seq<T>, first: nat, max: nat): seq<T>
  {
    if first >= |xs| then [] else if first + max <= |xs| then xs[first..first + max] else xs[first..]
  }

  function NthPage(params: Params, i: nat): (page: Params)
    ensures page.first == Some(100 * i) && page.max == Some(100) && page.search == params.search
  {
    params.(first := Some(PAGE_SIZE * i), max := Some(PAGE_SIZE))
  }

  /** The state and the accumulated elements after `n` fetches at offsets 0, 100, 200, ...;
      the first failing fetch ends the run. */
  function Fetches<S, T>(fetch: Fetch<S, T>, s: S, params: Params, n: nat): (S, Result<seq<T>, Error>)
  {
    if n == 0 then (s, Ok([]))
    else
      var (s1, acc) := Fetches(fetch, s, params, n - 1);
      if acc.Err? then (s1, acc)
      else
        var (s2, got) := fetch(s1, NthPage(params, n - 1));
        if got.Err? then (s2, got) else (s2, Ok(acc.value + got.value))
  }

  /** The reply to an explicit page request is that slice of the listing. */
  predicate PageOf<T(==)>(xs: seq<T>, p: Params, r: Result<seq<T>, Error>)
  {
    r.Ok? && p.first.Some? && p.max.Some? && p.first.value >= 0 && p.max.value >= 0 ==>
      r.value == Page(xs, p.first.value, p.max.value)
  }

  /** The server answers page requests for a search from the listing of that search as it
      stands when the call is served, and the listing does not grow for ever. What it does
      with requests for another search is not said. */
  ghost predicate ServesPages<S(!new), T>(fetch: Fetch<S, T>, list: S -> seq<T>, bound: S -> nat,
                                          search: Option<string>)
  {
    forall s, p: Params :: p.search == search ==>
      PageOf(list(fetch(s, p).0), p, fetch(s, p).1) && |list(fetch(s, p).0)| <= bound(fetch(s, p).0) <= bound(s)
  }

  ghost predicate OnlyInserts<S(!new), T>(fetch: Fetch<S, T>, list: S -> seq<T>, search: Option<string>)
  {
    forall s, p: Params :: p.search == search ==> Subseq(list(s), list(fetch(s, p).0))
  }

  ghost predicate OnlyAppends<S(!new), T>(fetch: Fetch<S, T>, list: S -> seq<T>, search: Option<string>)
  {
    forall s, p: Params :: p.search == search ==> list(s) <= list(fetch(s, p).0)
  }

  ghost predicate KeepsListing<S(!new), T>(fetch: Fetch<S, T>, list: S -> seq<T>, search: Option<string>)
  {
    forall s, p: Params :: p.search == search ==> list(fetch(s, p).0) == list(s)
  }

  /** After `n` fetches every page came back full. */
  predicate AllFull<S, T>(fetch: Fetch<S, T>, s: S, params: Params, n: nat)
  {
    var r := Fetches(fetch, s, params, n).1;
    r.Ok? && |r.value| == PAGE_SIZE * n
  }

  /** The run of `n` fetches is one the loop makes: full pages, then a short one or an error. */
  predicate Stopped<S, T>(fetch: Fetch<S, T>, s: S, params: Params, n: nat)
  {
    && n >= 1
    && AllFull(fetch, s, params, n - 1)
    && (var r := Fetches(fetch, s, params, n).1; r.Ok? ==> |r.value| < PAGE_SIZE * n)
  }

  method Paginate<S(!new), T>(remote: Remote<S>, fetch: Fetch<S, T>, params: Params,
                              ghost list: S -> seq<T>, ghost bound: S -> nat)
    returns (r: Result<seq<T>, Error>, ghost n: nat)
    requires params.max.None? ==> ServesPages(fetch, list, bound, params.search)
    modifies remote
    ensures params.max.Some? ==> (remote.state, r) == fetch(old(remote.state), params)
    ensures params.max.None? ==>
              && Stopped(fetch, old(remote.state), params, n)
              && (remote.state, r) == Fetches(fetch, old(remote.state), params, n)
  {
    n := 0;
    if params.max.Some? {
      var (s, only) := fetch(remote.state, params);
      remote.state := s;
      return only, 1;
    }

    var all: seq<T> := [];
    var first := 0;
    while true
      invariant first == PAGE_SIZE * n
      invariant (remote.state, Ok(all)) == Fetches(fetch, old(remote.state), params, n)
      invariant AllFull(fetch, old(remote.state), params, n)
      invariant n > 0 ==> first <= bound(remote.state)
      decreases n == 0, bound(remote.state) - first
    {
      var page := params.(first := Some(first), max := Some(PAGE_SIZE));
      ghost var before := remote.state;
      var (s, got) := fetch(remote.state, page);
      remote.state := s;
      assert page == NthPage(params, n);
      FetchMore(fetch, list, bound, old(remote.state), params, n, before, all);
      n := n + 1;
      if got.Err? {
        return got, n;
      }
      all := all + got.value;
      if |got.value| < PAGE_SIZE {
        return Ok(all), n;
      }
      first := first + PAGE_SIZE;
    }
  }

  /** One more fetch of the run, spelled out. */
  lemma FetchMore<S(!new), T>(fetch: Fetch<S, T>, list: S -> seq<T>, bound: S -> nat,
                              s: S, params: Params, n: nat, s1: S, acc: seq<T>)
    requires ServesPages(fetch, list, bound, params.search)
    requires Fetches(fetch, s, params, n) == (s1, Ok(acc))
    ensures var (s2, got) := fetch(s1, NthPage(params, n));
            && bound(s2) <= bound(s1)
            && Fetches(fetch, s, params, n + 1) == (s2, if got.Ok? then Ok(acc + got.value) else got)
            && (got.Ok? ==>
                  && got.value == Page(list(s2), PAGE_SIZE * n, PAGE_SIZE)
                  && |got.value| <= PAGE_SIZE
                  && (|got.value| == PAGE_SIZE ==> PAGE_SIZE * (n + 1) <= |list(s2)| <= bound(s2)))
  {
    assert PageOf(list(fetch(s1, NthPage(params, n)).0), NthPage(params, n), fetch(s1, NthPage(params, n)).1);
  }

  /** Full pages up to now mean full pages before. */
  lemma AllFullBefore<S(!new), T>(fetch: Fetch<S, T>, list: S -> seq<T>, bound: S -> nat,
                                  s: S, params: Params, n: nat)
    requires ServesPages(fetch, list, bound, params.search) && n > 0 && AllFull(fetch, s, params, n)
    ensures AllFull(fetch, s, params, n - 1)
    ensures var s1 := Fetches(fetch, s, params, n - 1).0;
            PAGE_SIZE * n <= |list(fetch(s1, NthPage(params, n - 1)).0)|
  {
    FetchesBounded(fetch, list, bound, s, params, n - 1);
    var s1 := Fetches(fetch, s, params, n - 1).0;
    var (s2, got) := fetch(s1, NthPage(params, n - 1));
    assert got.value == Page(list(s2), PAGE_SIZE * (n - 1), PAGE_SIZE);
  }

  lemma {:induction false} FetchesBounded<S(!new), T>(fetch: Fetch<S, T>, list: S -> seq<T>, bound: S -> nat,
                                                      s: S, params: Params, n: nat)
    requires ServesPages(fetch, list, bound, params.search)
    ensures var r := Fetches(fetch, s, params, n).1; r.Ok? ==> |r.value| <= PAGE_SIZE * n
  {
    if n > 0 {
      FetchesBounded(fetch, list, bound, s, params, n - 1);
      var (s1, acc) := Fetches(fetch, s, params, n - 1);
      var (s2, got) := fetch(s1, NthPage(params, n - 1));
      assert got.Ok? ==> got.value == Page(list(s2), PAGE_SIZE * (n - 1), PAGE_SIZE);
    }
  }

  // ---------------------------------------------------------------- appends only

  lemma {:induction false} FullPagesArePrefix<S(!new), T>(fetch: Fetch<S, T>, list: S -> seq<T>, bound: S -> nat,
                                                          s: S, params: Params, n: nat)
    requires ServesPages(fetch, list, bound, params.search) && OnlyAppends(fetch, list, params.search)
             && AllFull(fetch, s, params, n)
    ensures var (s', r) := Fetches(fetch, s, params, n); r.value <= list(s')
  {
    if n > 0 {
      AllFullBefore(fetch, list, bound, s, params, n);
      FullPagesArePrefix(fetch, list, bound, s, params, n - 1);
      var (s1, acc) := Fetches(fetch, s, params, n - 1);
      LastPageJoins(fetch, list, bound, s1, acc.value, params, n);
    }
  }

  lemma PageExtendsPrefix<T>(acc: seq<T>, xs: seq<T>)
    requires acc <= xs
    ensures var page := Page(xs, |acc|, PAGE_SIZE);
            acc + page <= xs && (|page| < PAGE_SIZE ==> acc + page == xs)
  {
    assert acc == xs[..|acc|];
  }

  lemma LastPageJoins<S(!new), T>(fetch: Fetch<S, T>, list: S -> seq<T>, bound: S -> nat,
                                  s1: S, acc: seq<T>, params: Params, n: nat)
    requires ServesPages(fetch, list, bound, params.search) && OnlyAppends(fetch, list, params.search)
    requires n > 0 && acc <= list(s1) && |acc| == PAGE_SIZE * (n - 1)
    ensures var (s2, got) := fetch(s1, NthPage(params, n - 1));
            got.Ok? ==> acc + got.value <= list(s2) && (|got.value| < PAGE_SIZE ==> acc + got.value == list(s2))
  {
    var p := NthPage(params, n - 1);
    var s2 := fetch(s1, p).0;
    assert list(s1) <= list(s2);
    assert PageOf(list(s2), p, fetch(s1, p).1);
    PageExtendsPrefix(acc, list(s2));
  }

  /** While elements are only appended, the loop returns the listing exactly as it stood
      at the last fetch: nothing missing, nothing twice. */
  lemma AppendedListingReadExactly<S(!new), T>(fetch: Fetch<S, T>, list: S -> seq<T>, bound: S -> nat,
                                               s: S, params: Params, n: nat)
    requires ServesPages(fetch, list, bound, params.search) && OnlyAppends(fetch, list, params.search)
    requires Stopped(fetch, s, params, n) && Fetches(fetch, s, params, n).1.Ok?
    ensures var (s', r) := Fetches(fetch, s, params, n); r.value == list(s')
  {
    FullPagesArePrefix(fetch, list, bound, s, params, n - 1);
    var (s1, acc) := Fetches(fetch, s, params, n - 1);
    LastPageJoins(fetch, list, bound, s1, acc.value, params, n);
  }

  /** A listing that stands still is read whole, in order, with |list| / 100 + 1 fetches,
      also when its length is a multiple of the page size. */
  lemma FixedListingReadWhole<S(!new), T>(fetch: Fetch<S, T>, list: S -> seq<T>, bound: S -> nat,
                                          s: S, params: Params, n: nat)
    requires ServesPages(fetch, list, bound, params.search) && KeepsListing(fetch, list, params.search)
    requires Stopped(fetch, s, params, n) && Fetches(fetch, s, params, n).1.Ok?
    ensures Fetches(fetch, s, params, n).1.value == list(s)
    ensures n == |list(s)| / 100 + 1
  {
    AppendedListingReadExactly(fetch, list, bound, s, params, n);
    ListingKept(fetch, list, s, params, n);
    FullPagesArePrefix(fetch, list, bound, s, params, n - 1);
    ListingKept(fetch, list, s, params, n - 1);
  }

  lemma {:induction false} ListingKept<S(!new), T>(fetch: Fetch<S, T>, list: S -> seq<T>, s: S, params: Params, n: nat)
    requires KeepsListing(fetch, list, params.search)
    ensures list(Fetches(fetch, s, params, n).0) == list(s)
  {
    if n > 0 {
      ListingKept(fetch, list, s, params, n - 1);
      var s1 := Fetches(fetch, s, params, n - 1).0;
      assert list(fetch(s1, NthPage(params, n - 1)).0) == list(s1);
    }
  }

  // ---------------------------------------------------------------- insertions anywhere

  /** `x` has been read already or still lies at or behind offset `from`. */
  predicate SeenOrAhead<T(==)>(x: T, seen: seq<T>, xs: seq<T>, from: nat)
  {
    x in seen || exists q :: from <= q < |xs| && xs[q] == x
  }

  /** Insertions keep an unread element ahead of the reader. */
  lemma AheadStaysAhead<T>(x: T, seen: seq<T>, xs: seq<T>, ys: seq<T>, from: nat)
    requires SeenOrAhead(x, seen, xs, from) && Subseq(xs, ys)
    ensures SeenOrAhead(x, seen, ys, from)
  {
    if x !in seen {
      var q :| from <= q < |xs| && xs[q] == x;
      var q' := SubseqPosition(xs, ys, q);
    }
  }

  /** Reading a page moves the offset past the elements it returns and no others. */
  lemma PageAdvances<T>(x: T, seen: seq<T>, xs: seq<T>, from: nat)
    requires SeenOrAhead(x, seen, xs, from)
    ensures SeenOrAhead(x, seen + Page(xs, from, PAGE_SIZE), xs, from + PAGE_SIZE)
    ensures |Page(xs, from, PAGE_SIZE)| < PAGE_SIZE ==> x in seen + Page(xs, from, PAGE_SIZE)
  {
    if x !in seen {
      var q :| from <= q < |xs| && xs[q] == x;
      if q < from + PAGE_SIZE {
        assert Page(xs, from, PAGE_SIZE)[q - from] == x;
      }
    }
  }

  lemma {:induction false} NothingSkipped<S(!new), T>(fetch: Fetch<S, T>, list: S -> seq<T>, bound: S -> nat,
                                                      s: S, params: Params, n: nat, x: T)
    requires ServesPages(fetch, list, bound, params.search) && OnlyInserts(fetch, list, params.search)
    requires AllFull(fetch, s, params, n) && x in list(s)
    ensures var (s', r) := Fetches(fetch, s, params, n); SeenOrAhead(x, r.value, list(s'), PAGE_SIZE * n)
  {
    if n > 0 {
      AllFullBefore(fetch, list, bound, s, params, n);
      NothingSkipped(fetch, list, bound, s, params, n - 1, x);
      var (s1, acc) := Fetches(fetch, s, params, n - 1);
      OneFetchSkipsNothing(fetch, list, bound, s1, acc.value, params, n, x);
    }
  }

  lemma OneFetchSkipsNothing<S(!new), T>(fetch: Fetch<S, T>, list: S -> seq<T>, bound: S -> nat,
                                         s1: S, acc: seq<T>, params: Params, n: nat, x: T)
    requires ServesPages(fetch, list, bound, params.search) && OnlyInserts(fetch, list, params.search)
    requires n > 0 && SeenOrAhead(x, acc, list(s1), PAGE_SIZE * (n - 1))
    ensures var (s2, got) := fetch(s1, NthPage(params, n - 1));
            got.Ok? ==> && SeenOrAhead(x, acc + got.value, list(s2), PAGE_SIZE * n)
                        && (|got.value| < PAGE_SIZE ==> x in acc + got.value)
  {
    var (s2, got) := fetch(s1, NthPage(params, n - 1));
    if got.Ok? {
      assert Subseq(list(s1), list(s2));
      assert got.value == Page(list(s2), PAGE_SIZE * (n - 1), PAGE_SIZE);
      AheadStaysAhead(x, acc, list(s1), list(s2), PAGE_SIZE * (n - 1));
      PageAdvances(x, acc, list(s2), PAGE_SIZE * (n - 1));
    }
  }

  lemma PageMember<T>(xs: seq<T>, from: nat, x: T)
    requires x in Page(xs, from, PAGE_SIZE)
    ensures x in xs
  {}

  lemma OneFetchReadsExisting<S(!new), T>(fetch: Fetch<S, T>, list: S -> seq<T>, bound: S -> nat,
                                          s1: S, acc: seq<T>, params: Params, n: nat, x: T)
    requires ServesPages(fetch, list, bound, params.search) && OnlyInserts(fetch, list, params.search)
    requires n > 0 && (x in acc ==> x in list(s1))
    ensures var (s2, got) := fetch(s1, NthPage(params, n - 1));
            got.Ok? && x in acc + got.value ==> x in list(s2)
  {
    var p := NthPage(params, n - 1);
    var s2 := fetch(s1, p).0;
    var got := fetch(s1, p).1;
    assert Subseq(list(s1), list(s2));
    assert PageOf(list(s2), p, got);
    if x in acc {
      SubseqMember(list(s1), list(s2), x);
    } else if got.Ok? && x in got.value {
      PageMember(list(s2), PAGE_SIZE * (n - 1), x);
    }
  }

  lemma {:induction false} ReadElementsExist<S(!new), T>(fetch: Fetch<S, T>, list: S -> seq<T>, bound: S -> nat,
                                                         s: S, params: Params, n: nat, x: T)
    requires ServesPages(fetch, list, bound, params.search) && OnlyInserts(fetch, list, params.search)
    ensures var r := Fetches(fetch, s, params, n).1;
            r.Ok? && x in r.value ==> x in list(Fetches(fetch, s, params, n).0)
  {
    if n > 0 {
      var (s1, acc) := Fetches(fetch, s, params, n - 1);
      if acc.Ok? {
        ReadElementsExist(fetch, list, bound, s, params, n - 1, x);
        OneFetchReadsExisting(fetch, list, bound, s1, acc.value, params, n, x);
      }
    }
  }

  /** Whatever is inserted meanwhile, and wherever, the loop returns every element that was
      listed at the start and only elements that are listed at the end. */
  lemma InsertedListingReadCompletely<S(!new), T>(fetch: Fetch<S, T>, list: S -> seq<T>, bound: S -> nat,
                                                  s: S, params: Params, n: nat, x: T)
    requires ServesPages(fetch, list, bound, params.search) && OnlyInserts(fetch, list, params.search)
    requires Stopped(fetch, s, params, n) && Fetches(fetch, s, params, n).1.Ok?
    ensures x in list(s) ==> x in Fetches(fetch, s, params, n).1.value
    ensures x in Fetches(fetch, s, params, n).1.value ==> x in list(Fetches(fetch, s, params, n).0)
  {
    hide NthPage;
    ReadElementsExist(fetch, list, bound, s, params, n, x);
    if x in list(s) {
      var (s1, acc) := Fetches(fetch, s, params, n - 1);
      NothingSkipped(fetch, list, bound, s, params, n - 1, x);
      OneFetchSkipsNothing(fetch, list, bound, s1, acc.value, params, n, x);
    }
  }

  // ---------------------------------------------------------------- exactly when nothing repeats

  /** The listing after `i` fetches. */
  function ListedAfter<S, T>(fetch: Fetch<S, T>, list: S -> seq<T>, s: S, params: Params, i: nat): seq<T>
  {
    list(Fetches(fetch, s, params, i).0)
  }

  /** Between one fetch and the next nothing is inserted in front of what has been read. */
  predicate UndisturbedAt<S, T(==)>(fetch: Fetch<S, T>, list: S -> seq<T>, s: S, params: Params, i: nat)
  {
    var xs, ys := ListedAfter(fetch, list, s, params, i), ListedAfter(fetch, list, s, params, i + 1);
    PAGE_SIZE * i <= |xs| && xs[..PAGE_SIZE * i] <= ys
  }

  ghost predicate Undisturbed<S, T>(fetch: Fetch<S, T>, list: S -> seq<T>, s: S, params: Params, n: nat)
  {
    forall i :: 0 < i < n ==> UndisturbedAt(fetch, list, s, params, i)
  }

  lemma {:induction false} AllFullEarlier<S(!new), T>(fetch: Fetch<S, T>, list: S -> seq<T>, bound: S -> nat,
                                                      s: S, params: Params, i: nat, n: nat)
    requires ServesPages(fetch, list, bound, params.search) && AllFull(fetch, s, params, n) && i <= n
    ensures AllFull(fetch, s, params, i)
    ensures i > 0 ==> PAGE_SIZE * i <= |ListedAfter(fetch, list, s, params, i)|
    decreases n - i
  {
    if i < n {
      AllFullEarlier(fetch, list, bound, s, params, i + 1, n);
      AllFullBefore(fetch, list, bound, s, params, i + 1);
    }
    if i > 0 {
      AllFullBefore(fetch, list, bound, s, params, i);
    }
  }

  /** Undisturbed full pages have read the front of the listing as it stands. */
  lemma {:induction false} UndisturbedReadsFront<S(!new), T>(fetch: Fetch<S, T>, list: S -> seq<T>, bound: S -> nat,
                                                             s: S, params: Params, n: nat)
    requires ServesPages(fetch, list, bound, params.search) && AllFull(fetch, s, params, n)
    requires Undisturbed(fetch, list, s, params, n)
    ensures Fetches(fetch, s, params, n).1.value <= ListedAfter(fetch, list, s, params, n)
  {
    hide Page, NthPage, PageOf;
    if n > 0 {
      AllFullBefore(fetch, list, bound, s, params, n);
      UndisturbedReadsFront(fetch, list, bound, s, params, n - 1);
      NextPageAfterFront(fetch, list, bound, s, params, n);
    }
  }

  /** The next page after such a front, unless something was inserted before it. */
  lemma NextPageAfterFront<S(!new), T>(fetch: Fetch<S, T>, list: S -> seq<T>, bound: S -> nat,
                                       s: S, params: Params, n: nat)
    requires ServesPages(fetch, list, bound, params.search) && n > 0 && AllFull(fetch, s, params, n - 1)
    requires n > 1 ==> UndisturbedAt(fetch, list, s, params, n - 1)
    requires Fetches(fetch, s, params, n - 1).1.value <= ListedAfter(fetch, list, s, params, n - 1)
    ensures var r, xs := Fetches(fetch, s, params, n).1, ListedAfter(fetch, list, s, params, n);
            r.Ok? ==> r.value <= xs && (|r.value| < PAGE_SIZE * n ==> r.value == xs)
  {
    var (s1, acc) := Fetches(fetch, s, params, n - 1);
    var (s2, got) := fetch(s1, NthPage(params, n - 1));
    assert PageOf(list(fetch(s1, NthPage(params, n - 1)).0), NthPage(params, n - 1), got);
    assert acc.value == list(s1)[..|acc.value|];
    if got.Ok? {
      PageExtendsPrefix(acc.value, list(s2));
    }
  }

  /** What is read after `i` fetches, from the `i`-th on. */
  lemma {:induction false} ReadAgain<S(!new), T>(fetch: Fetch<S, T>, list: S -> seq<T>, bound: S -> nat,
                                                 s: S, params: Params, i: nat, n: nat, x: T)
    requires ServesPages(fetch, list, bound, params.search) && OnlyInserts(fetch, list, params.search)
    requires 0 < i < n && AllFull(fetch, s, params, n - 1) && Fetches(fetch, s, params, n).1.Ok?
    requires SeenOrAhead(x, [], ListedAfter(fetch, list, s, params, i + 1), PAGE_SIZE * i)
    ensures var r := Fetches(fetch, s, params, n).1.value;
            && PAGE_SIZE * i <= |r| && Fetches(fetch, s, params, i).1 == Ok(r[..PAGE_SIZE * i])
            && SeenOrAhead(x, r[PAGE_SIZE * i..], ListedAfter(fetch, list, s, params, n), PAGE_SIZE * n)
            && (|r| < PAGE_SIZE * n ==> x in r[PAGE_SIZE * i..])
    decreases n
  {
    hide Page, NthPage, SeenOrAhead, OnlyInserts;
    var (s1, acc) := Fetches(fetch, s, params, n - 1);
    var (s2, got) := fetch(s1, NthPage(params, n - 1));
    var r := acc.value + got.value;
    assert |got.value| == |r| - PAGE_SIZE * (n - 1);
    if n == i + 1 {
      assert r[PAGE_SIZE * i..] == [] + got.value && r[..PAGE_SIZE * i] == acc.value;
      OnePage(fetch, list, bound, s1, params, n, x);
    } else {
      AllFullEarlier(fetch, list, bound, s, params, n - 2, n - 1);
      ReadAgain(fetch, list, bound, s, params, i, n - 1, x);
      assert r[PAGE_SIZE * i..] == acc.value[PAGE_SIZE * i..] + got.value;
      assert r[..PAGE_SIZE * i] == acc.value[..PAGE_SIZE * i];
      OneFetchSkipsNothing(fetch, list, bound, s1, acc.value[PAGE_SIZE * i..], params, n, x);
    }
  }

  lemma OnePage<S(!new), T>(fetch: Fetch<S, T>, list: S -> seq<T>, bound: S -> nat, s1: S, params: Params, n: nat, x: T)
    requires ServesPages(fetch, list, bound, params.search) && n > 0
    requires var (s2, got) := fetch(s1, NthPage(params, n - 1));
             got.Ok? && SeenOrAhead(x, [], list(s2), PAGE_SIZE * (n - 1))
    ensures var (s2, got) := fetch(s1, NthPage(params, n - 1));
            && SeenOrAhead(x, [] + got.value, list(s2), PAGE_SIZE * n)
            && (|got.value| < PAGE_SIZE ==> x in [] + got.value)
  {
    var p := NthPage(params, n - 1);
    assert PageOf(list(fetch(s1, p).0), p, fetch(s1, p).1);
    PageAdvances(x, [], list(fetch(s1, p).0), PAGE_SIZE * (n - 1));
  }

  /** Something inserted in front of an element moves it towards the end. */
  lemma PushedBehind<T>(xs: seq<T>, ys: seq<T>, m: nat)
    requires Subseq(xs, ys) && 0 < m <= |xs| && !(xs[..m] <= ys)
    ensures SeenOrAhead(xs[m - 1], [], ys, m)
  {
    var last: nat := m - 1;
    var q := SubseqFront(xs, ys, last);
    if q == last {
      SubseqLength(xs[..m], ys[..m]);
      assert false;
    }
  }

  lemma {:induction false} ListedGrows<S(!new), T>(fetch: Fetch<S, T>, list: S -> seq<T>,
                                                   s: S, params: Params, i: nat, n: nat)
    requires OnlyInserts(fetch, list, params.search) && i <= n
    ensures Subseq(ListedAfter(fetch, list, s, params, i), ListedAfter(fetch, list, s, params, n))
    decreases n - i
  {
    SubseqRefl(ListedAfter(fetch, list, s, params, i));
    if i < n {
      ListedGrows(fetch, list, s, params, i + 1, n);
      var (s1, acc) := Fetches(fetch, s, params, i);
      assert Subseq(list(s1), list(fetch(s1, NthPage(params, i)).0));
      SubseqTrans(ListedAfter(fetch, list, s, params, i), ListedAfter(fetch, list, s, params, i + 1),
                  ListedAfter(fetch, list, s, params, n));
    }
  }

  /** At the first disturbance the last element read so far is read a second time. */
  lemma DisturbedRepeats<S(!new), T>(fetch: Fetch<S, T>, list: S -> seq<T>, bound: S -> nat,
                                     s: S, params: Params, n: nat, i: nat)
    requires ServesPages(fetch, list, bound, params.search) && OnlyInserts(fetch, list, params.search)
    requires Stopped(fetch, s, params, n) && Fetches(fetch, s, params, n).1.Ok?
    requires 0 < i < n && Undisturbed(fetch, list, s, params, i) && !UndisturbedAt(fetch, list, s, params, i)
    ensures var r := Fetches(fetch, s, params, n).1.value;
            PAGE_SIZE * i <= |r| && r[PAGE_SIZE * i - 1] in r[PAGE_SIZE * i..] && !NoDup(r)
  {
    hide Page, NthPage, Fetches, OnlyInserts, ServesPages;
    AllFullEarlier(fetch, list, bound, s, params, i, n - 1);
    UndisturbedReadsFront(fetch, list, bound, s, params, i);
    ListedGrows(fetch, list, s, params, i, i + 1);
    var m := PAGE_SIZE * i;
    var xs, ys := ListedAfter(fetch, list, s, params, i), ListedAfter(fetch, list, s, params, i + 1);
    var x, acc, r := xs[m - 1], Fetches(fetch, s, params, i).1.value, Fetches(fetch, s, params, n).1.value;
    PushedBehind(xs, ys, m);
    ReadAgain(fetch, list, bound, s, params, i, n, x);
    assert r[m - 1] == r[..m][m - 1] == acc[m - 1] == x;
    var j :| 0 <= j < |r[m..]| && r[m..][j] == x;
    assert r[m + j] == x;
  }

  lemma {:induction false} FirstDisturbance<S, T>(fetch: Fetch<S, T>, list: S -> seq<T>, s: S, params: Params, n: nat)
        returns (i: nat)
    requires !Undisturbed(fetch, list, s, params, n)
    ensures 0 < i < n && Undisturbed(fetch, list, s, params, i) && !UndisturbedAt(fetch, list, s, params, i)
    decreases n
  {
    i := n - 1;
    if !Undisturbed(fetch, list, s, params, n - 1) {
      i := FirstDisturbance(fetch, list, s, params, n - 1);
    }
  }

  /** While elements are inserted anywhere, the loop returns the listing exactly as it stood
      at the last fetch if and only if nothing was inserted, between two fetches, in front
      of what had been read. */
  lemma ReadExactlyIffUndisturbed<S(!new), T>(fetch: Fetch<S, T>, list: S -> seq<T>, bound: S -> nat,
                                              s: S, params: Params, n: nat)
    requires ServesPages(fetch, list, bound, params.search) && OnlyInserts(fetch, list, params.search)
    requires Stopped(fetch, s, params, n) && Fetches(fetch, s, params, n).1.Ok?
    requires NoDup(ListedAfter(fetch, list, s, params, n))
    ensures Fetches(fetch, s, params, n).1.value == ListedAfter(fetch, list, s, params, n) <==>
            Undisturbed(fetch, list, s, params, n)
    ensures NoDup(Fetches(fetch, s, params, n).1.value) <==> Undisturbed(fetch, list, s, params, n)
  {
    if Undisturbed(fetch, list, s, params, n) {
      UndisturbedReadsFront(fetch, list, bound, s, params, n - 1);
      NextPageAfterFront(fetch, list, bound, s, params, n);
    } else {
      var i := FirstDisturbance(fetch, list, s, params, n);
      DisturbedRepeats(fetch, list, bound, s, params, n, i);
    }
  }

  /** A server that lists one more element, at the front, before it serves a later page. */
  function InsertingServer(y: int, s: seq<int>, p: Params): (seq<int>, Result<seq<int>, Error>)
  {
    if p.first == Some(0) then (s, Ok(Page(s, 0, PAGE_SIZE))) else ([y] + s, Ok(Page([y] + s, PAGE_SIZE, PAGE_SIZE)))
  }

  /** No more than that holds: one insertion at the front between two fetches returns an
      old element twice and the new element not at all. */
  lemma InsertionCanRepeat(xs: seq<int>, y: int, params: Params)
    requires |xs| == PAGE_SIZE
    ensures Fetches((s: seq<int>, p: Params) => InsertingServer(y, s, p), xs, params, 2) ==
            ([y] + xs, Ok(xs + [xs[PAGE_SIZE - 1]]))
  {
    var fetch := (s: seq<int>, p: Params) => InsertingServer(y, s, p);
    assert Page(xs, 0, PAGE_SIZE) == xs;
    assert [] + xs == xs;
    assert fetch(xs, NthPage(params, 0)) == (xs, Ok(xs));
    assert Fetches(fetch, xs, params, 0) == (xs, Ok([]));
    assert Fetches(fetch, xs, params, 1) == (xs, Ok(xs));
    assert Page([y] + xs, PAGE_SIZE, PAGE_SIZE) == [xs[PAGE_SIZE - 1]];
    assert fetch(xs, NthPage(params, 1)) == ([y] + xs, Ok([xs[PAGE_SIZE - 1]]));
  }
}
