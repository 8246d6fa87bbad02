/**
 * The pagination cursor of the follower crawler: a page size `limit` and an
 * `offset`.  After a page is handled the crawler asks for the next page only
 * while `offset + limit < totals`, moving `offset` on by `limit`.
 */
module Pagination {
  import opened Wrappers

  /** The offset of the next page to request, or None when the crawl is done. */
  function NextOffset(offset: int, limit: int, totals: int): (r: Option<int>)
    ensures r.Some? <==> offset + limit < totals
    ensures r.Some? ==> r.value == offset + limit && r.value < totals
  {
    if offset + limit < totals then Some(offset + limit) else None
  }

  /**
   * Pages handled by a crawl that starts at `offset` against a constant
   * `totals`: a page reporting no followers ends the crawl at once, otherwise
   * the cursor rule decides whether one more page follows.
   */
  function PagesFetched(offset: int, limit: int, totals: int): nat
    requires limit > 0
    decreases totals - offset
  {
    if totals == 0 then 1
    else match NextOffset(offset, limit, totals)
      case None => 1
      case Some(next) => 1 + PagesFetched(next, limit, totals)
  }

  lemma {:induction false} MulAtLeast(k: int, l: int)
    requires k >= 1 && l > 0
    ensures k * l >= l
    decreases k
  {
    if k > 1 {
      MulAtLeast(k - 1, l);
      assert k * l == (k - 1) * l + l;
    }
  }

  /** Euclidean division is determined by quotient and remainder. */
  lemma DivUnique(x: int, l: int, q: int, r: int)
    requires l > 0 && 0 <= r < l && x == q * l + r
    ensures x / l == q
  {
    var q0, r0 := x / l, x % l;
    assert x == q0 * l + r0 && 0 <= r0 < l;
    assert (q - q0) * l == q * l - q0 * l;
    if q0 < q {
      MulAtLeast(q - q0, l);
    } else if q0 > q {
      assert (q0 - q) * l == q0 * l - q * l;
      MulAtLeast(q0 - q, l);
    }
  }

  lemma DivStep(x: int, l: int)
    requires x >= 0 && l > 0
    ensures (x + l) / l == x / l + 1
  {
    DivUnique(x + l, l, x / l + 1, x % l);
  }

  lemma DivOne(x: int, l: int)
    requires l > 0 && l <= x < 2 * l
    ensures x / l == 1
  {
  }

  /** From any offset short of `totals`, the crawl handles ceil((totals - offset) / limit) pages. */
  lemma {:induction false} PagesFetchedFrom(offset: int, limit: int, totals: int)
    requires limit > 0 && 0 <= offset < totals
    ensures PagesFetched(offset, limit, totals) == (totals - offset + limit - 1) / limit
    decreases totals - offset
  {
    if offset + limit < totals {
      PagesFetchedFrom(offset + limit, limit, totals);
      DivStep(totals - offset - 1, limit);
    } else {
      DivOne(totals - offset + limit - 1, limit);
    }
  }

  /**
   * A crawl from offset 0 with page size L > 0 against T followers handles
   * ceil(T / L) pages when T > 0, and exactly one (that writes nothing) when T = 0.
   */
  lemma PagesFetchedFromStart(limit: int, totals: int)
    requires limit > 0 && totals >= 0
    ensures totals > 0 ==> PagesFetched(0, limit, totals) == (totals + limit - 1) / limit
    ensures totals == 0 ==> PagesFetched(0, limit, totals) == 1
  {
    if totals > 0 {
      PagesFetchedFrom(0, limit, totals);
    }
  }

  // Java `int` arithmetic, as the source does it on its `Integer` fields.

  const INT_MIN: int := -0x8000_0000
  const INT_MAX: int := 0x7fff_ffff

  /** Two's-complement wrap-around of an integer into 32 bits. */
  function Int32(x: int): (r: int)
    ensures INT_MIN <= r <= INT_MAX
    ensures INT_MIN <= x <= INT_MAX ==> r == x
  {
    (x - INT_MIN) % 0x1_0000_0000 + INT_MIN
  }

  /**
   * The cursor rule as written: `OFFSET + LIMIT` and `OFFSET += LIMIT` are
   * 32-bit int sums, compared with the 64-bit `totals` after widening.
   */
  function NextOffsetInt32(offset: int, limit: int, totals: int): Option<int>
  {
    var hasGetTotal := Int32(offset + limit);
    if hasGetTotal < totals then Some(Int32(offset + limit)) else None
  }

  /** While the sum fits in an int, the as-written rule is the cursor rule. */
  lemma NextOffsetInt32Agrees(offset: int, limit: int, totals: int)
    requires INT_MIN <= offset + limit <= INT_MAX
    ensures NextOffsetInt32(offset, limit, totals) == NextOffset(offset, limit, totals)
  {
  }

  /**
   * With more than 2^31 - 1 followers, the as-written rule wraps: from offset
   * 2147483640 (page 107374183 at LIMIT = 20) it requests a negative offset,
   * where the cursor rule requests 2147483660.
   */
  lemma NextOffsetInt32Wraps()
    ensures NextOffsetInt32(2147483640, 20, 3000000000) == Some(-2147483636)
    ensures NextOffset(2147483640, 20, 3000000000) == Some(2147483660)
  {
  }
}
