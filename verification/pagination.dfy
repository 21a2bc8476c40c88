/** The pagination control of the product list: page numbers and the rules
    that disable its two buttons. */
module Pagination {
  import opened Common

  /** `Math.floor(offset / limit) + 1`: the page holding the item at `offset`. */
  function CurrentPage(offset: nat, limit: nat): (page: nat)
    requires limit > 0
    ensures page >= 1
    ensures (page - 1) * limit <= offset < page * limit
  {
    offset / limit + 1
  }

  /** `totalItems ? Math.ceil(totalItems / limit) : 0`: the fewest pages of
      `limit` items that hold every item. */
  function TotalPages(totalItems: Option<nat>, limit: nat): (pages: nat)
    requires limit > 0
    ensures !TruthyNum(totalItems) ==> pages == 0
    ensures TruthyNum(totalItems) ==>
      pages >= 1 && (pages - 1) * limit < totalItems.value <= pages * limit
  {
    if TruthyNum(totalItems) then (totalItems.value + limit - 1) / limit else 0
  }

  /** Next is disabled once the current page reaches the known total; with an
      unknown total it stays enabled. */
  function IsNextDisabled(offset: nat, limit: nat, totalItems: Option<nat>): (disabled: bool)
    ensures totalItems.None? ==> !disabled
    ensures totalItems.Some? ==> (disabled <==> offset + limit >= totalItems.value)
  {
    if totalItems.Some? then offset + limit >= totalItems.value else false
  }

  /** Previous is disabled exactly on the first item. */
  function IsPrevDisabled(offset: nat): (disabled: bool)
    ensures disabled <==> offset == 0
  {
    offset == 0
  }

  /** On a page boundary, Previous is disabled exactly on the first page. */
  lemma PrevDisabledOnFirstPage(offset: nat, limit: nat)
    requires limit > 0 && offset % limit == 0
    ensures IsPrevDisabled(offset) <==> CurrentPage(offset, limit) == 1
  {
    var k := offset / limit;
    assert offset == k * limit;
    if k > 0 {
      MulStrict(0, k, limit);
    }
  }

  /** Multiplying by a positive page size preserves strict order. */
  lemma MulStrict(a: int, b: int, limit: nat)
    requires limit > 0
    ensures a < b <==> a * limit < b * limit
  {
    if a < b {
      assert b * limit - a * limit == (b - a) * limit;
    } else {
      assert a * limit - b * limit == (a - b) * limit;
    }
  }

  /** On a page boundary inside a known, non-empty list, Next is disabled
      exactly when the current page is the last page. */
  lemma NextDisabledOnLastPage(offset: nat, limit: nat, total: nat)
    requires limit > 0 && total > 0
    requires offset % limit == 0 && offset < total
    ensures IsNextDisabled(offset, limit, Some(total)) <==> CurrentPage(offset, limit) == TotalPages(Some(total), limit)
  {
    var k := offset / limit;
    var pages := TotalPages(Some(total), limit);
    assert offset == k * limit;
    assert offset + limit == (k + 1) * limit;
    // pages is the least p with total <= p * limit, so it is k + 1 iff (k + 1) * limit >= total
    MulStrict(pages - 1, k + 1, limit);
    MulStrict(k, pages, limit);
    MulStrict(k + 1, pages, limit);
  }

  /** Division with remainder is unique. */
  lemma ModUnique(n: int, k: nat, q: int, r: int)
    requires k > 0 && 0 <= r < k && n == q * k + r
    ensures n % k == r
  {
    var q', r' := n / k, n % k;
    assert n == q' * k + r';
    assert (q' + 1) * k == q' * k + k;
    assert (q + 1) * k == q * k + k;
    if q' < q {
      MulStrict(q' + 1, q, k);
      assert false;
    } else if q < q' {
      MulStrict(q + 1, q', k);
      assert false;
    }
  }

  /** Moving an offset by one whole page keeps it on a page boundary. */
  lemma ShiftByLimit(a: nat, k: nat)
    requires k > 0
    ensures (a + k) % k == a % k
  {
    var q := a / k;
    assert (q + 1) * k == q * k + k;
    ModUnique(a + k, k, q + 1, a % k);
  }
}
