/** The ORM's `findMany({ where, orderBy, skip, take })` as functions on
    sequences: a stable insertion sort under a "comes first" relation, and the
    skip/take window, and the page/limit arithmetic shared by the listing routes. */
module Query {
  import opened Common

  /** `ge(a, b)`: `a` may be listed before `b`. The ORM's orderings are total
      preorders (ties allowed). */
  ghost predicate TotalPreorder<T(!new)>(ge: (T, T) -> bool) {
    && (forall a, b :: ge(a, b) || ge(b, a))
    && (forall a, b, c :: ge(a, b) && ge(b, c) ==> ge(a, c))
  }

  ghost predicate SortedBy<T>(s: seq<T>, ge: (T, T) -> bool) {
    forall i, j :: 0 <= i < j < |s| ==> ge(s[i], s[j])
  }

  /** Places `x` before the first element it may precede. */
  function Insert<T>(x: T, s: seq<T>, ge: (T, T) -> bool): (r: seq<T>)
    ensures multiset(r) == multiset(s) + multiset{x}
    ensures |r| == |s| + 1
  {
    if s == [] then [x]
    else if ge(x, s[0]) then [x] + s
    else
      assert s == [s[0]] + s[1..];
      [s[0]] + Insert(x, s[1..], ge)
  }

  /** `orderBy`: the rows of `s` rearranged so that earlier rows come first under `ge`. */
  function OrderBy<T>(s: seq<T>, ge: (T, T) -> bool): (r: seq<T>)
    ensures multiset(r) == multiset(s)
    ensures |r| == |s|
  {
    if s == [] then []
    else
      assert s == [s[0]] + s[1..];
      Insert(s[0], OrderBy(s[1..], ge), ge)
  }

  lemma {:induction false} InsertSorted<T(!new)>(x: T, s: seq<T>, ge: (T, T) -> bool)
    requires TotalPreorder(ge)
    requires SortedBy(s, ge)
    ensures SortedBy(Insert(x, s, ge), ge)
  {
    if s != [] && !ge(x, s[0]) {
      InsertSorted(x, s[1..], ge);
      var tail := Insert(x, s[1..], ge);
      assert multiset(tail) == multiset(s[1..]) + multiset{x};
      forall k | 0 <= k < |tail| ensures ge(s[0], tail[k]) {
        assert tail[k] in multiset(tail);
        if tail[k] != x {
          assert tail[k] in multiset(s[1..]);
          var j :| 0 <= j < |s[1..]| && s[1..][j] == tail[k];
          assert s[j + 1] == tail[k];
        }
      }
    }
  }

  /** The ordering really is an ordering, and no row is gained or lost. */
  lemma {:induction false} OrderBySorted<T(!new)>(s: seq<T>, ge: (T, T) -> bool)
    requires TotalPreorder(ge)
    ensures SortedBy(OrderBy(s, ge), ge)
    ensures multiset(OrderBy(s, ge)) == multiset(s)
  {
    if s != [] {
      OrderBySorted(s[1..], ge);
      InsertSorted(s[0], OrderBy(s[1..], ge), ge);
    }
  }

  /** `take: n` (a non-positive `n` takes nothing). */
  function Take<T>(s: seq<T>, n: int): (r: seq<T>)
    ensures |r| == if n <= 0 then 0 else if n < |s| then n else |s|
    ensures r == s[..|r|]
  {
    if n <= 0 then [] else if n < |s| then s[..n] else s
  }

  /** `skip: n`. */
  function Skip<T>(s: seq<T>, n: nat): (r: seq<T>)
    ensures |r| == if n < |s| then |s| - n else 0
    ensures n <= |s| ==> r == s[n..]
  {
    if n < |s| then s[n..] else []
  }

  /** A prefix of a sorted sequence is sorted, and comes before everything after it. */
  lemma SortedPrefix<T(!new)>(sorted: seq<T>, w: seq<T>, ge: (T, T) -> bool)
    requires SortedBy(sorted, ge)
    requires |w| <= |sorted| && w == sorted[..|w|]
    ensures SortedBy(w, ge)
    ensures multiset(w) <= multiset(sorted)
    ensures forall x :: x in sorted && x !in w ==> forall i :: 0 <= i < |w| ==> ge(w[i], x)
  {
    assert sorted == w + sorted[|w|..];
    assert multiset(sorted) == multiset(w) + multiset(sorted[|w|..]);
    forall x | x in sorted && x !in w ensures forall i :: 0 <= i < |w| ==> ge(w[i], x) {
      var k :| 0 <= k < |sorted| && sorted[k] == x;
      assert k >= |w|;
    }
  }

  /** `orderBy` then `take: n`: the window is sorted, holds rows of `s` only,
      and every row of `s` it leaves out comes no earlier than any row in it. */
  lemma TopWindow<T(!new)>(s: seq<T>, ge: (T, T) -> bool, n: int)
    requires TotalPreorder(ge)
    ensures SortedBy(Take(OrderBy(s, ge), n), ge)
    ensures multiset(Take(OrderBy(s, ge), n)) <= multiset(s)
    ensures forall x :: x in s && x !in Take(OrderBy(s, ge), n) ==>
              forall i :: 0 <= i < |Take(OrderBy(s, ge), n)| ==> ge(Take(OrderBy(s, ge), n)[i], x)
  {
    var sorted := OrderBy(s, ge);
    OrderBySorted(s, ge);
    SortedPrefix(sorted, Take(sorted, n), ge);
    forall x | x in s ensures x in sorted {
      assert x in multiset(s);
    }
  }

  /** A `skip`/`take` window of a listing is a contiguous run of it, so it
      keeps the listing's order. */
  lemma Window<T>(s: seq<T>, skip: nat, limit: int, ge: (T, T) -> bool)
    ensures forall i :: 0 <= i < |Take(Skip(s, skip), limit)| ==>
              skip + i < |s| && Take(Skip(s, skip), limit)[i] == s[skip + i]
    ensures SortedBy(s, ge) ==> SortedBy(Take(Skip(s, skip), limit), ge)
  {
    var w := Take(Skip(s, skip), limit);
    assert forall i :: 0 <= i < |w| ==> w[i] == s[skip + i];
  }

  // ---------------------------------------------------------------------------
  // Paging arithmetic of the listing routes
  // ---------------------------------------------------------------------------

  /** The largest page size any listing serves. */
  const MAX_LIMIT := 50

  /** `Math.max(0, Number(page ?? 0))`. */
  function PageParam(q: Option<int>): (p: nat)
    ensures p >= q.GetOr(0)
    ensures q.GetOr(0) >= 0 ==> p == q.GetOr(0)
    ensures q.GetOr(0) < 0 ==> p == 0
  {
    Max(0, q.GetOr(0))
  }

  /** `Math.min(50, Number(limit ?? default))`; a negative request stays negative. */
  function LimitParam(q: Option<int>, default: int): (l: int)
    ensures l <= MAX_LIMIT && l <= q.GetOr(default)
    ensures q.GetOr(default) <= MAX_LIMIT ==> l == q.GetOr(default)
  {
    Min(MAX_LIMIT, q.GetOr(default))
  }

  /** The route hands the ORM `skip: page * limit` and `take: limit + 1`;
      both are non-negative exactly when the limit is not negative, or is -1
      on the first page (a take of 0). */
  predicate NonNegativeWindow(page: nat, limit: int) {
    limit >= 0 || (limit == -1 && page == 0)
  }

  lemma NonNegativeWindowIff(page: nat, limit: int)
    ensures NonNegativeWindow(page, limit) <==> page * limit >= 0 && limit + 1 >= 0
  {
    if limit < -1 {
      assert limit + 1 < 0;
    } else if limit == -1 && page > 0 {
      assert page * limit == -(page as int);
    }
  }

  /** `skip: page * limit` for a window the ORM is handed. */
  function SkipOf(page: nat, limit: int): (skip: nat)
    requires NonNegativeWindow(page, limit)
    ensures skip == page * limit
  {
    if limit >= 0 then page * limit else 0
  }

  /** `skip`, then `take: limit + 1`, then `hasMore = rows.length > limit` and
      `if (hasMore) rows.pop()`: the page is the first `limit` rows after the
      skipped ones, and `hasMore` says whether any row is left after it. With
      `limit = -1` nothing is taken, `hasMore` is true and `pop()` on the
      empty array does nothing. */
  method OverFetch<T>(listing: seq<T>, skip: nat, limit: int) returns (rows: seq<T>, hasMore: bool)
    requires limit >= -1
    ensures hasMore <==> |Skip(listing, skip)| > limit
    ensures rows == Take(Skip(listing, skip), limit)
    ensures |rows| <= Max(0, limit)
  {
    var rest := Skip(listing, skip);
    rows := Take(rest, limit + 1);
    hasMore := |rows| > limit;
    if hasMore && |rows| > 0 {
      rows := rows[..|rows| - 1];
    }
  }
}
