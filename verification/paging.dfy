/** Pagination arithmetic shared by the listing routes: reading `page` and
    `limit` from a query, the number of entries skipped, and the page count. */
module Paging {
  import opened Basics

  /** `parseInt(q) || d`: an absent or non-numeric parameter (`None`) and a
      zero both fall back to the default; any other value, even a negative
      one, is kept. */
  function ParamOr(q: Option<int>, default: int): (r: int)
    ensures q.None? ==> r == default
    ensures q.Some? && q.value == 0 ==> r == default
    ensures q.Some? && q.value != 0 ==> r == q.value
    ensures default != 0 ==> r != 0
  {
    match q
    case None => default
    case Some(v) => if v == 0 then default else v
  }

  /** Default page size of the transaction listings. */
  const ListingLimit: int := 10

  /** Default page size of the admin listings. */
  const AdminLimit: int := 20

  /** Entries skipped before the given page: none on the first page, and
      never a negative count from a positive page and limit. */
  function Skip(page: int, limit: int): (r: int)
    ensures page == 1 ==> r == 0
    ensures page >= 1 && limit > 0 ==> r >= 0
  {
    (page - 1) * limit
  }

  /** Two windows of `n` that follow each other make the window of `2 n`. */
  lemma WindowsAdjoin<T>(xs: seq<T>, k: nat, n: nat)
    ensures Window(xs, k, n) + Window(xs, k + n, n) == Window(xs, k, 2 * n)
  {
    if k + n < |xs| {
      if k + 2 * n <= |xs| {
        assert xs[k..k + n] + xs[k + n..k + 2 * n] == xs[k..k + 2 * n];
      } else {
        assert xs[k..k + n] + xs[k + n..] == xs[k..];
      }
    } else if k < |xs| {
      assert Window(xs, k + n, n) == [];
      assert Window(xs, k, 2 * n) == xs[k..];
    }
  }

  /** With a positive limit, consecutive pages are adjacent slices of the
      listing: page `p + 1` starts where page `p` ends, and the two together
      are the two-page window from page `p` on. */
  lemma ConsecutivePagesAdjoin<T>(xs: seq<T>, p: int, l: int)
    requires p >= 1 && l > 0
    ensures Skip(p, l) >= 0 && Skip(p + 1, l) == Skip(p, l) + l
    ensures Window(xs, Skip(p, l), l) + Window(xs, Skip(p + 1, l), l) == Window(xs, Skip(p, l), 2 * l)
  {
    var k := Skip(p, l);
    assert Skip(p + 1, l) == k + l by {
      assert p * l == (p - 1) * l + l;
    }
    WindowsAdjoin(xs, k, l);
  }

  /** With a positive limit, entry `k` of the listing is shown on page
      `k / l + 1`, at position `k % l`. */
  lemma EntryOnItsPage<T>(xs: seq<T>, l: int, k: nat)
    requires l > 0 && k < |xs|
    ensures Skip(k / l + 1, l) == k - k % l
    ensures var w := Window(xs, k - k % l, l); k % l < |w| && w[k % l] == xs[k]
  {
    assert Skip(k / l + 1, l) == (k / l) * l;
  }

  /** `Math.ceil(total / limit)` for a non-zero limit, with JavaScript's
      division: the least integer not below the quotient. */
  function CeilDiv(total: nat, limit: int): (r: int)
    requires limit != 0
    ensures limit > 0 ==> (r - 1) * limit < total <= r * limit
    ensures limit < 0 ==> r * limit <= total < (r - 1) * limit
    ensures limit > 0 ==> r >= 0
    ensures limit < 0 ==> r <= 0
  {
    if limit > 0 then (total + limit - 1) / limit
    else -(total / -limit)
  }

  /** With a positive limit the page count covers every entry: the page of
      each entry index is below the count. */
  lemma PagesCoverEntries(total: nat, limit: int, k: nat)
    requires limit > 0 && k < total
    ensures 0 <= k / limit < CeilDiv(total, limit)
  {
    var r := CeilDiv(total, limit);
    var q := k / limit;
    assert q * limit <= k < r * limit;
    assert (r - q) * limit > 0;
  }

  /** The page count of the admin listings, where `limit` is parsed with no
      fallback: a zero limit makes the count infinite (or not a number when
      there are no entries), which is not an integer. */
  function AdminPages(total: nat, limit: int): (r: Option<int>)
    ensures limit == 0 <==> r.None?
    ensures limit > 0 ==> r.Some? && (r.value - 1) * limit < total <= r.value * limit
  {
    if limit == 0 then None else Some(CeilDiv(total, limit))
  }
}
