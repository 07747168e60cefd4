/** The JSON API vocabulary: the pagination record handed to list views and
    the error values handlers raise so the router can report them as data. */
module Apis {
  import opened Wrappers

  // ------------------------------------------------------------ arithmetic

  /** Python's `a // b`: the quotient rounded towards negative infinity. */
  function FloorDiv(a: int, b: int): (q: int)
    requires b != 0
    ensures b > 0 ==> q * b <= a < q * b + b
    ensures b < 0 ==> q * b >= a > q * b + b
  {
    if b > 0 then a / b else (-a) / (-b)
  }

  /** Python's `a % b`: the remainder carries the sign of the divisor. */
  function FloorMod(a: int, b: int): (r: int)
    requires b != 0
    ensures a == b * FloorDiv(a, b) + r
    ensures b > 0 ==> 0 <= r < b
    ensures b < 0 ==> b < r <= 0
  {
    a - b * FloorDiv(a, b)
  }

  /** Python's `int(x)` on a float: the integer part, rounded towards zero. */
  function Trunc(x: real): (i: int)
    ensures x >= 0.0 ==> i as real <= x < i as real + 1.0
    ensures x < 0.0 ==> i as real - 1.0 < x <= i as real
  {
    if x >= 0.0 then x.Floor else -((-x).Floor)
  }

  // ------------------------------------------------------------ pagination

  /** What `Page.__init__` leaves on the object. */
  datatype Page = Page(
    itemCount: int,
    pageCount: int,
    pageIndex: int,
    pageSize: int,
    offset: int,
    limit: int,
    hasNext: bool,
    hasPrevious: bool)

  const DivisionByZero := "ZeroDivisionError: integer division or modulo by zero"

  /** `Page(item_count, page_index=1, page_size=2)`.  A zero page size makes
      the very first division raise. */
  function MakePage(itemCount: int, pageIndex: int := 1, pageSize: int := 2): (r: Result<Page, string>)
    ensures r.Failure? <==> pageSize == 0
    ensures r.Failure? ==> r.error == DivisionByZero
    ensures r.Success? ==>
      var p := r.value;
      && p.itemCount == itemCount && p.pageSize == pageSize
      && ((itemCount == 0 || pageIndex > p.pageCount) ==>
            p.pageIndex == 1 && p.offset == 0 && p.limit == 0)
      && (!(itemCount == 0 || pageIndex > p.pageCount) ==>
            p.pageIndex == pageIndex && p.offset == pageSize * (pageIndex - 1) && p.limit == pageSize)
      && (p.hasNext <==> p.pageIndex < p.pageCount)
      && (p.hasPrevious <==> p.pageIndex > 1)
  {
    if pageSize == 0 then Failure(DivisionByZero)
    else
      var pageCount := FloorDiv(itemCount, pageSize) + (if FloorMod(itemCount, pageSize) > 0 then 1 else 0);
      var outOfRange := itemCount == 0 || pageIndex > pageCount;
      var index := if outOfRange then 1 else pageIndex;
      var offset := if outOfRange then 0 else pageSize * (pageIndex - 1);
      var limit := if outOfRange then 0 else pageSize;
      Success(Page(itemCount, pageCount, index, pageSize, offset, limit, index < pageCount, index > 1))
  }

  /** With a positive page size, `page_count` is the least number of pages
      of that size that hold all the items. */
  lemma {:induction false} PageCountIsCeiling(itemCount: nat, pageSize: int)
    requires pageSize > 0
    ensures var p := MakePage(itemCount, 1, pageSize).value;
      && p.pageCount >= 0
      && p.pageCount * pageSize >= itemCount
      && (p.pageCount == 0 || (p.pageCount - 1) * pageSize < itemCount)
      && (p.pageCount == 0 <==> itemCount == 0)
  {
    var q := FloorDiv(itemCount, pageSize);
    var m := FloorMod(itemCount, pageSize);
    assert itemCount == pageSize * q + m;
    if m > 0 {
      assert (q + 1) * pageSize == q * pageSize + pageSize;
    } else {
      assert q * pageSize == itemCount;
      if q > 0 {
        assert (q - 1) * pageSize == q * pageSize - pageSize;
      }
    }
  }

  /** The page count does not depend on which page is asked for. */
  lemma {:induction false} PageCountIndependentOfIndex(itemCount: int, pageIndex: int, pageSize: int)
    requires pageSize != 0
    ensures MakePage(itemCount, pageIndex, pageSize).value.pageCount
         == MakePage(itemCount, 1, pageSize).value.pageCount
  {
  }

  /** The page record for a page within range, in terms of the page count. */
  lemma {:induction false} InRangePage(itemCount: nat, pageIndex: int, pageSize: int)
    requires pageSize > 0 && 1 <= pageIndex
    requires pageIndex <= MakePage(itemCount, 1, pageSize).value.pageCount
    ensures var n := MakePage(itemCount, 1, pageSize).value.pageCount;
      MakePage(itemCount, pageIndex, pageSize).value
        == Page(itemCount, n, pageIndex, pageSize, pageSize * (pageIndex - 1), pageSize, pageIndex < n, pageIndex > 1)
  {
    PageCountIsCeiling(itemCount, pageSize);
    PageCountIndependentOfIndex(itemCount, pageIndex, pageSize);
  }

  /** Every item lies on exactly one displayable page: item `i` is shown by
      the page numbered `i // page_size + 1`, which is within the page count
      and whose window starts at or before `i` and ends after it. */
  lemma {:induction false} EveryItemOnItsPage(itemCount: nat, pageSize: int, i: nat)
    requires pageSize > 0 && i < itemCount
    ensures var k := FloorDiv(i, pageSize) + 1;
      var p := MakePage(itemCount, k, pageSize).value;
      && 1 <= k <= p.pageCount
      && p.pageIndex == k
      && p.offset <= i < p.offset + p.limit
  {
    var q := FloorDiv(i, pageSize);
    var n := MakePage(itemCount, 1, pageSize).value.pageCount;
    PageCountIsCeiling(itemCount, pageSize);
    assert q >= 0 by {
      if q < 0 {
        MonotoneProduct(q, -1, pageSize);
      }
    }
    assert q < n by {
      if q >= n {
        MonotoneProduct(n, q, pageSize);
      }
    }
    PageCountIndependentOfIndex(itemCount, q + 1, pageSize);
    InRangePage(itemCount, q + 1, pageSize);
    assert pageSize * (q + 1 - 1) == q * pageSize;
  }

  lemma {:induction false} MonotoneProduct(a: int, b: int, c: int)
    requires a <= b && c > 0
    ensures a * c <= b * c
  {
    assert b * c - a * c == (b - a) * c;
  }

  /** A page within range starts inside the item list: it never shows an
      empty window while items remain. */
  lemma {:induction false} InRangePageStartsWithinItems(itemCount: nat, pageIndex: int, pageSize: int)
    requires pageSize > 0 && 1 <= pageIndex
    requires pageIndex <= MakePage(itemCount, 1, pageSize).value.pageCount
    ensures var p := MakePage(itemCount, pageIndex, pageSize).value;
      && p.pageIndex == pageIndex
      && 0 <= p.offset < itemCount
      && p.limit == pageSize
      && (p.hasNext <==> p.offset + p.limit < itemCount)
  {
    var n := MakePage(itemCount, 1, pageSize).value.pageCount;
    PageCountIsCeiling(itemCount, pageSize);
    InRangePage(itemCount, pageIndex, pageSize);
    WindowWithinItems(pageIndex, n, pageSize, itemCount);
  }

  lemma {:induction false} WindowWithinItems(k: int, n: int, size: int, items: int)
    requires size > 0 && 1 <= k <= n
    requires n * size >= items && (n - 1) * size < items
    ensures 0 <= size * (k - 1) < items
    ensures k < n <==> size * (k - 1) + size < items
  {
    MonotoneProduct(0, k - 1, size);
    MonotoneProduct(k - 1, n - 1, size);
    assert size * (k - 1) + size == k * size;
    if k < n {
      MonotoneProduct(k, n - 1, size);
    }
  }

  /** A request past the last page, or any request when there are no items,
      falls back to an empty first page with no neighbours before it. */
  lemma {:induction false} OutOfRangePageIsEmpty(itemCount: nat, pageIndex: int, pageSize: int)
    requires pageSize > 0
    requires itemCount == 0 || pageIndex > MakePage(itemCount, 1, pageSize).value.pageCount
    ensures var p := MakePage(itemCount, pageIndex, pageSize).value;
      && p.offset == 0 && p.limit == 0 && p.pageIndex == 1 && !p.hasPrevious
      && (p.hasNext <==> itemCount > pageSize)
  {
    PageCountIsCeiling(itemCount, pageSize);
    PageCountIndependentOfIndex(itemCount, pageIndex, pageSize);
  }

  // ---------------------------------------------------------------- errors

  /** `APIError(error, data='', message='')`: the machine-readable code, the
      offending item and a human-readable message. */
  datatype ApiError = ApiError(error: string, data: string, message: string)

  /** `APIValueError(field, message='')`. */
  function ValueError(field: string, message: string := ""): ApiError
  {
    ApiError("value:invalid", field, message)
  }

  /** `APIResourceNotFoundError(field, message='')`. */
  function NotFoundError(field: string, message: string := ""): ApiError
  {
    ApiError("value:notfound", field, message)
  }

  /** `APIPermissionError(message='')`. */
  function PermissionError(message: string := ""): ApiError
  {
    ApiError("permission:forbidden", "permission", message)
  }
}
