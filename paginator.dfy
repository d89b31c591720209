/** The page selector under every list (frontend/src/components/ui/Paginator.jsx):
    the range of shown records and the window of page buttons with ellipses. */
module Paginator {
  import Numeric

  /** Nothing is drawn for a single page. */
  predicate Renders(pages: int) {
    pages > 1
  }

  /** The first and last record number shown, `start` and `end`. */
  function Shown(page: int, limit: int, total: int): (int, int) {
    ((page - 1) * limit + 1, if page * limit < total then page * limit else total)
  }

  /** On any page of a list of `total` records split into pages of `limit`,
      the shown range is non-empty, lies within the list and holds at most a
      page of records, exactly a page before the last one. */
  lemma ShownWithinList(page: int, limit: int, total: nat)
    requires limit > 0 && 1 <= page <= Numeric.CeilDiv(total, limit)
    ensures var (start, end) := Shown(page, limit, total);
            1 <= start <= end <= total && end - start + 1 <= limit
            && (page < Numeric.CeilDiv(total, limit) ==> end - start + 1 == limit)
  {
    var pages := Numeric.CeilDiv(total, limit);
    assert (page - 1) * limit < total by {
      Numeric.ProductSign(limit, pages - page);
      assert limit * (pages - page) == pages * limit - page * limit;
      assert (pages - 1) * limit == pages * limit - limit;
    }
    Numeric.ProductSign(limit, page - 1);
    assert page * limit == (page - 1) * limit + limit;
    if page < pages {
      Numeric.ProductSign(limit, pages - 1 - page);
      assert limit * (pages - 1 - page) == (pages - 1) * limit - page * limit;
    }
  }

  /** `disabled={page <= 1}` and `disabled={page >= pages}`. */
  predicate PrevDisabled(page: int) {
    page <= 1
  }

  predicate NextDisabled(page: int, pages: int) {
    page >= pages
  }

  /** From a page in range, the enabled arrows lead to a page in range. */
  lemma ArrowsStayInRange(page: int, pages: int)
    requires 1 <= page <= pages
    ensures !PrevDisabled(page) ==> 1 <= page - 1 <= pages
    ensures !NextDisabled(page, pages) ==> 1 <= page + 1 <= pages
    ensures PrevDisabled(page) <==> page == 1
    ensures NextDisabled(page, pages) <==> page == pages
  {
  }

  const MaxVisible: int := 5

  /** `startPage` and `endPage` of `getPages`. */
  function Window(page: int, pages: int): (w: (int, int))
    requires pages > 1
    ensures 1 <= w.0 <= w.1 <= pages
    ensures w.1 - w.0 + 1 == if pages < MaxVisible then pages else MaxVisible
    ensures 1 <= page <= pages ==> w.0 <= page <= w.1
    ensures 3 <= page <= pages - 2 ==> w.0 == page - 2 && w.1 == page + 2
  {
    var s0 := if page - MaxVisible / 2 > 1 then page - MaxVisible / 2 else 1;
    var e := if s0 + MaxVisible - 1 < pages then s0 + MaxVisible - 1 else pages;
    var s := if e - s0 < MaxVisible - 1 then (if e - MaxVisible + 1 > 1 then e - MaxVisible + 1 else 1) else s0;
    (s, e)
  }

  /** An entry of the list: a page button or the `'...'` marker. */
  datatype Item = PageNo(n: int) | Gap

  function Run(a: int, b: int): (r: seq<Item>)
    requires a <= b
    ensures |r| == b - a && forall k :: 0 <= k < |r| ==> r[k] == PageNo(a + k)
  {
    seq(b - a, k requires 0 <= k < b - a => PageNo(a + k))
  }

  /** The first page and a marker before a window that starts late. */
  function Lead(s: int): seq<Item> {
    if s > 1 then [PageNo(1)] + (if s > 2 then [Gap] else []) else []
  }

  /** A marker and the last page after a window that ends early. */
  function Trail(e: int, pages: int): seq<Item> {
    if e < pages then (if e < pages - 1 then [Gap] else []) + [PageNo(pages)] else []
  }

  /** The list `getPages` returns. */
  function Listing(page: int, pages: int): seq<Item>
    requires pages > 1
  {
    var (s, e) := Window(page, pages);
    Lead(s) + Run(s, e + 1) + Trail(e, pages)
  }

  /** `getPages`: pushes onto an array, the window in a `for` loop. */
  method GetPages(page: int, pages: int) returns (arr: seq<Item>)
    requires pages > 1
    ensures arr == Listing(page, pages)
  {
    var w := Window(page, pages);
    var startPage, endPage := w.0, w.1;
    arr := [];
    if startPage > 1 {
      arr := arr + [PageNo(1)];
      if startPage > 2 {
        arr := arr + [Gap];
      }
    }
    var lead := arr;
    assert lead == Lead(startPage);
    assert Run(startPage, startPage) == [];
    assert arr == lead + Run(startPage, startPage);
    for i := startPage to endPage + 1
      invariant arr == lead + Run(startPage, i)
    {
      RunStep(startPage, i);
      arr := arr + [PageNo(i)];
    }
    var shown := arr;
    if endPage < pages {
      if endPage < pages - 1 {
        arr := arr + [Gap];
      }
      arr := arr + [PageNo(pages)];
    }
    assert arr == shown + Trail(endPage, pages);
  }

  lemma RunStep(a: int, b: int)
    requires a <= b
    ensures Run(a, b + 1) == Run(a, b) + [PageNo(b)]
  {
    var r := Run(a, b) + [PageNo(b)];
    assert forall k :: 0 <= k < |r| ==> r[k] == PageNo(a + k);
  }

  /** The list opens with page 1 and closes with the last page, and shows
      the current page whenever it is in range. */
  lemma ListingEnds(page: int, pages: int)
    requires pages > 1
    ensures var l := Listing(page, pages);
            |l| >= 2 && l[0] == PageNo(1) && l[|l| - 1] == PageNo(pages)
            && (1 <= page <= pages ==> PageNo(page) in l)
  {
    var (s, e) := Window(page, pages);
    var l := Listing(page, pages);
    var lead, run, trail := Lead(s), Run(s, e + 1), Trail(e, pages);
    assert l == lead + run + trail;
    if 1 <= page <= pages {
      assert l[|lead| + (page - s)] == PageNo(page);
    }
  }

  /** Neighbouring page buttons are consecutive pages, and a marker always
      sits between two buttons that skip at least one page. */
  lemma ListingSteps(page: int, pages: int)
    requires pages > 1
    ensures var l := Listing(page, pages);
            (forall i :: 0 <= i < |l| - 1 && l[i].PageNo? && l[i + 1].PageNo? ==> l[i + 1].n == l[i].n + 1)
            && (forall i :: 0 <= i < |l| && l[i] == Gap ==>
                  0 < i < |l| - 1 && l[i - 1].PageNo? && l[i + 1].PageNo? && l[i + 1].n > l[i - 1].n + 1)
  {
    var (s, e) := Window(page, pages);
    assert Listing(page, pages) == Lead(s) + Run(s, e + 1) + Trail(e, pages);
    ButtonsConsecutive(s, e, pages);
    GapsBetween(s, e, pages);
  }

  lemma ButtonsConsecutive(s: int, e: int, pages: int)
    requires 1 <= s <= e <= pages
    ensures var l := Lead(s) + Run(s, e + 1) + Trail(e, pages);
            forall i :: 0 <= i < |l| - 1 && l[i].PageNo? && l[i + 1].PageNo? ==> l[i + 1].n == l[i].n + 1
  {
    var lead, run, trail := Lead(s), Run(s, e + 1), Trail(e, pages);
    var l := lead + run + trail;
    forall i | 0 <= i < |l| - 1 && l[i].PageNo? && l[i + 1].PageNo?
      ensures l[i + 1].n == l[i].n + 1
    {
      if i + 1 < |lead| {
      } else if i + 1 == |lead| {
        assert l[i + 1] == run[0] == PageNo(s);
      } else if i + 1 < |lead| + |run| {
        assert l[i] == run[i - |lead|] && l[i + 1] == run[i + 1 - |lead|];
      } else {
        assert l[i + 1] == trail[i + 1 - |lead| - |run|];
      }
    }
  }

  lemma GapsBetween(s: int, e: int, pages: int)
    requires 1 <= s <= e <= pages
    ensures var l := Lead(s) + Run(s, e + 1) + Trail(e, pages);
            forall i :: 0 <= i < |l| && l[i] == Gap ==>
              0 < i < |l| - 1 && l[i - 1].PageNo? && l[i + 1].PageNo? && l[i + 1].n > l[i - 1].n + 1
  {
    var lead, run, trail := Lead(s), Run(s, e + 1), Trail(e, pages);
    var l := lead + run + trail;
    forall i | 0 <= i < |l| && l[i] == Gap
      ensures 0 < i < |l| - 1 && l[i - 1].PageNo? && l[i + 1].PageNo? && l[i + 1].n > l[i - 1].n + 1
    {
      if i < |lead| {
        assert i == 1 && l[2] == run[0] == PageNo(s);
      } else {
        assert i >= |lead| + |run|;
        assert l[i - 1] == run[|run| - 1] == PageNo(e) && l[i + 1] == PageNo(pages);
      }
    }
  }
}
