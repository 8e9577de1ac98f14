/** Client-side pagination of `lib/list-controls.ts`. Page numbers are arbitrary integers, as a caller may pass any. */
module Pagination {

  /** `items.slice(start, end)`, negative bounds counting from the end. */
  function JsSlice<T>(items: seq<T>, start: int, end: int): seq<T> {
    var n := |items|;
    var a := if start < 0 then (if n + start < 0 then 0 else n + start) else if start > n then n else start;
    var b := if end < 0 then (if n + end < 0 then 0 else n + end) else if end > n then n else end;
    if a <= b then items[a..b] else []
  }

  function PaginateArray<T>(items: seq<T>, page: int, pageSize: int): seq<T> {
    if pageSize <= 0 then items else JsSlice(items, page * pageSize, page * pageSize + pageSize)
  }

  /** `Math.max(1, Math.ceil(total / pageSize))` where that is a division by a positive number. */
  function PageCount(total: int, pageSize: int): int {
    if total <= 0 || pageSize <= 0 then 1
    else
      var pages := (total + pageSize - 1) / pageSize;
      if pages < 1 then 1 else pages
  }

  function ClampPage(page: int, totalPages: int): int {
    if totalPages <= 0 then 0
    else
      var upper := if page < totalPages - 1 then page else totalPages - 1;
      if upper < 0 then 0 else upper
  }

  datatype Range = Range(start: int, end: int)

  function ListRange(total: int, page: int, pageSize: int): Range {
    if total <= 0 then Range(0, 0)
    else
      var safePage := ClampPage(page, PageCount(total, pageSize));
      var last := (safePage + 1) * pageSize;
      Range(safePage * pageSize + 1, if total < last then total else last)
  }

  /** Pages 0 up to `count`, one after the other. */
  function Pages<T>(items: seq<T>, count: nat, pageSize: int): seq<T> {
    if count == 0 then [] else Pages(items, count - 1, pageSize) + PaginateArray(items, count - 1, pageSize)
  }

  function Min(a: int, b: int): int {
    if a < b then a else b
  }

  lemma PageOfList<T>(items: seq<T>, page: nat, pageSize: nat)
    requires pageSize > 0
    ensures 0 <= page * pageSize <= (page + 1) * pageSize == page * pageSize + pageSize
    ensures PaginateArray(items, page, pageSize)
            == items[Min(page * pageSize, |items|)..Min((page + 1) * pageSize, |items|)]
  {
    assert (page + 1) * pageSize == page * pageSize + pageSize;
  }

  lemma PrefixGrows<T>(items: seq<T>, a: nat, b: nat)
    requires a <= b <= |items|
    ensures items[..a] + items[a..b] == items[..b]
  {
  }

  lemma {:induction false} PagesArePrefix<T>(items: seq<T>, count: nat, pageSize: nat)
    requires pageSize > 0
    ensures 0 <= count * pageSize && Pages(items, count, pageSize) == items[..Min(count * pageSize, |items|)]
  {
    if count > 0 {
      PagesArePrefix(items, count - 1, pageSize);
      PageOfList(items, count - 1, pageSize);
      PrefixGrows(items, Min((count - 1) * pageSize, |items|), Min(count * pageSize, |items|));
    }
  }

  /** The page count is the least number of pages that hold every item, and at least one. */
  lemma PageCountIsLeast(total: nat, pageSize: nat)
    requires pageSize > 0
    ensures var n := PageCount(total, pageSize);
            n >= 1 && n * pageSize >= total && (n > 1 ==> (n - 1) * pageSize < total)
  {
    if total > 0 {
      var n := (total + pageSize - 1) / pageSize;
      assert n * pageSize + (total + pageSize - 1) % pageSize == total + pageSize - 1;
      assert (n - 1) * pageSize == n * pageSize - pageSize;
    }
  }

  /** Pages 0 to pageCount - 1 put together are the list: nothing missing, repeated or out of order. */
  lemma PagesPartition<T>(items: seq<T>, pageSize: nat)
    requires pageSize > 0
    ensures Pages(items, PageCount(|items|, pageSize), pageSize) == items
  {
    PageCountIsLeast(|items|, pageSize);
    PagesArePrefix(items, PageCount(|items|, pageSize), pageSize);
  }

  /** For any requested page the range shown is exactly the slice shown, which is never empty unless the list is. */
  lemma RangeIsTheSlice<T>(items: seq<T>, page: int, pageSize: nat)
    requires pageSize > 0 && items != []
    ensures var r := ListRange(|items|, page, pageSize);
            && 1 <= r.start <= r.end <= |items|
            && items[r.start - 1..r.end]
               == PaginateArray(items, ClampPage(page, PageCount(|items|, pageSize)), pageSize)
  {
    var n := PageCount(|items|, pageSize);
    PageCountIsLeast(|items|, pageSize);
    var safe := ClampPage(page, n);
    PageOfList(items, safe, pageSize);
    PagesGrow(safe, n - 1, pageSize);
  }

  lemma PagesGrow(a: nat, b: nat, pageSize: nat)
    requires a <= b
    ensures a * pageSize <= b * pageSize
  {
  }

  /** Without a page size there is one page, the whole list; an empty list has one empty page and no range. */
  lemma EdgeCases<T>(items: seq<T>, page: int, pageSize: int, total: int)
    ensures pageSize <= 0 ==> PaginateArray(items, page, pageSize) == items && PageCount(total, pageSize) == 1
    ensures total <= 0 ==> PageCount(total, pageSize) == 1 && ListRange(total, page, pageSize) == Range(0, 0)
    ensures pageSize <= 0 && total > 0 ==> ListRange(total, page, pageSize) == Range(1, pageSize)
    ensures PaginateArray(items, |items|, 1) == []
  {
  }

  /** The clamped page: the requested one if there is such a page, else the nearest that there is, else the first. */
  lemma ClampedPage(page: int, totalPages: int)
    ensures var p := ClampPage(page, totalPages);
            && (totalPages <= 0 ==> p == 0)
            && (totalPages > 0 ==> 0 <= p < totalPages)
            && (0 <= page < totalPages ==> p == page)
            && (totalPages > 0 && page < 0 ==> p == 0)
            && (page >= totalPages > 0 ==> p == totalPages - 1)
  {
  }
}
