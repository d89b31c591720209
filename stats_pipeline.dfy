/** The case-pipeline section of `/insights` (backend/routes/stats.js:312-329):
    the status funnel, filled in a loop over the fixed status order, and the
    category-by-status matrix over the sorted distinct categories. */
module StatsPipeline {
  import opened Records
  import opened Tally
  import Seqs

  /** `statusOrder`: the funnel's fixed order. */
  const StatusOrder: seq<CaseStatus> := [Pending, Active, OnHold, Appeal, Closed]

  /** Cases with status `st`. */
  function CountStatus(cases: seq<CaseRec>, st: CaseStatus): (n: nat)
    ensures n <= |cases|
  {
    if cases == [] then 0
    else (if cases[0].status == st then 1 else 0) + CountStatus(cases[1..], st)
  }

  /** Cases in category `cat`. */
  function CountCategory(cases: seq<CaseRec>, cat: string): (n: nat)
    ensures n <= |cases|
  {
    if cases == [] then 0
    else (if cases[0].category == cat then 1 else 0) + CountCategory(cases[1..], cat)
  }

  /** Cases in category `cat` with status `st`. */
  function CountCell(cases: seq<CaseRec>, cat: string, st: CaseStatus): (n: nat)
    ensures n <= CountCategory(cases, cat)
    ensures n <= CountStatus(cases, st)
  {
    if cases == [] then 0
    else (if cases[0].category == cat && cases[0].status == st then 1 else 0) + CountCell(cases[1..], cat, st)
  }

  /** Every case has one of the five statuses, so the status counts add up to
      the number of cases. */
  lemma {:induction false} StatusesPartition(cases: seq<CaseRec>)
    ensures CountStatus(cases, Pending) + CountStatus(cases, Active) + CountStatus(cases, OnHold)
          + CountStatus(cases, Appeal) + CountStatus(cases, Closed) == |cases|
  {
    if cases != [] {
      StatusesPartition(cases[1..]);
    }
  }

  /** Within a category, the five cells add up to the category's count. */
  lemma {:induction false} CellsPartition(cases: seq<CaseRec>, cat: string)
    ensures CountCell(cases, cat, Pending) + CountCell(cases, cat, Active) + CountCell(cases, cat, OnHold)
          + CountCell(cases, cat, Appeal) + CountCell(cases, cat, Closed) == CountCategory(cases, cat)
  {
    if cases != [] {
      CellsPartition(cases[1..], cat);
    }
  }

  /** The funnel loop: one entry per status in `StatusOrder`, counting the
      in-range cases with that status; the entries add up to the number of
      in-range cases. */
  method Funnel(inRange: seq<CaseRec>) returns (funnel: seq<Entry<nat>>)
    ensures Names(funnel) == ["Pending", "Active", "On Hold", "Appeal", "Closed"]
    ensures forall i :: 0 <= i < |funnel| ==> funnel[i].val == CountStatus(inRange, StatusOrder[i])
    ensures SumVals(funnel, Count) == |inRange|
  {
    funnel := [];
    for i := 0 to |StatusOrder|
      invariant |funnel| == i
      invariant forall j :: 0 <= j < i ==>
                  funnel[j] == Entry(StatusName(StatusOrder[j]), CountStatus(inRange, StatusOrder[j]))
    {
      var s := StatusOrder[i];
      funnel := funnel + [Entry(StatusName(s), CountStatus(inRange, s))];
    }
    assert funnel[4..][1..] == [] && funnel[3..][1..] == funnel[4..] && funnel[2..][1..] == funnel[3..];
    assert funnel[1..][1..] == funnel[2..] && funnel[0..] == funnel;
    assert SumVals(funnel[4..], Count) == funnel[4].val;
    assert SumVals(funnel[3..], Count) == funnel[3].val + funnel[4].val;
    assert SumVals(funnel[2..], Count) == funnel[2].val + funnel[3].val + funnel[4].val;
    assert SumVals(funnel[1..], Count) == funnel[1].val + funnel[2].val + funnel[3].val + funnel[4].val;
    StatusesPartition(inRange);
  }

  // ---------------------------------------------------------------------------
  // Heatmap

  /** One matrix row: `cells[j]` counts the row's category with status
      `StatusOrder[j]`. */
  datatype HeatRow = HeatRow(category: string, cells: seq<nat>)

  function CategoryOf(c: CaseRec): string {
    c.category
  }

  /** `[...new Set(casesInRange.map(c => c.category))].sort()`. */
  function Categories(inRange: seq<CaseRec>): (r: seq<string>)
    ensures Seqs.SortedStrings(r) && Seqs.Distinct(r)
    ensures forall k :: k in r <==> k in Keys(inRange, CategoryOf)
  {
    Seqs.SortStrings(Seqs.Dedup(Keys(inRange, CategoryOf)))
  }

  function Row(inRange: seq<CaseRec>, cat: string): HeatRow {
    HeatRow(cat, seq(|StatusOrder|, j requires 0 <= j < |StatusOrder| => CountCell(inRange, cat, StatusOrder[j])))
  }

  function Rows(inRange: seq<CaseRec>, cats: seq<string>): (r: seq<HeatRow>)
    ensures |r| == |cats|
    ensures forall i :: 0 <= i < |cats| ==> r[i] == Row(inRange, cats[i])
  {
    if cats == [] then [] else [Row(inRange, cats[0])] + Rows(inRange, cats[1..])
  }

  /** `heatmapData`: one row per in-range category, in ascending order. */
  function Heatmap(inRange: seq<CaseRec>): seq<HeatRow> {
    Rows(inRange, Categories(inRange))
  }

  function RowTotal(r: HeatRow): int {
    Seqs.SumBy(r.cells, (n: nat) => n as int)
  }

  function CellTotal(rows: seq<HeatRow>): int {
    if rows == [] then 0 else RowTotal(rows[0]) + CellTotal(rows[1..])
  }

  lemma RowTotalIsCategoryCount(inRange: seq<CaseRec>, cat: string)
    ensures RowTotal(Row(inRange, cat)) == CountCategory(inRange, cat)
  {
    var cells := Row(inRange, cat).cells;
    var w := (n: nat) => n as int;
    assert |cells| == 5;
    assert cells[4..][1..] == [] && cells[3..][1..] == cells[4..] && cells[2..][1..] == cells[3..];
    assert cells[1..][1..] == cells[2..];
    assert Seqs.SumBy(cells[4..], w) == cells[4];
    assert Seqs.SumBy(cells[3..], w) == cells[3] + cells[4];
    assert Seqs.SumBy(cells[2..], w) == cells[2] + cells[3] + cells[4];
    assert Seqs.SumBy(cells[1..], w) == cells[1] + cells[2] + cells[3] + cells[4];
    CellsPartition(inRange, cat);
  }

  /** The categories' counts summed over a list of categories. */
  function CategoryTotal(inRange: seq<CaseRec>, cats: seq<string>): int {
    if cats == [] then 0 else CountCategory(inRange, cats[0]) + CategoryTotal(inRange, cats[1..])
  }

  lemma {:induction false} CategoryTotalNone(cats: seq<string>)
    ensures CategoryTotal([], cats) == 0
  {
    if cats != [] {
      CategoryTotalNone(cats[1..]);
    }
  }

  /** How often `k` occurs in `cats`. */
  function Hits(cats: seq<string>, k: string): nat {
    if cats == [] then 0 else (if cats[0] == k then 1 else 0) + Hits(cats[1..], k)
  }

  lemma {:induction false} HitsDistinct(cats: seq<string>, k: string)
    requires Seqs.Distinct(cats) && k in cats
    ensures Hits(cats, k) == 1
  {
    if cats[0] != k {
      HitsDistinct(cats[1..], k);
    } else {
      HitsAbsent(cats[1..], k);
    }
  }

  lemma {:induction false} HitsAbsent(cats: seq<string>, k: string)
    requires k !in cats
    ensures Hits(cats, k) == 0
  {
    if cats != [] {
      HitsAbsent(cats[1..], k);
    }
  }

  lemma {:induction false} CategoryTotalCons(c: CaseRec, rest: seq<CaseRec>, cats: seq<string>)
    ensures CategoryTotal([c] + rest, cats) == Hits(cats, c.category) + CategoryTotal(rest, cats)
  {
    assert ([c] + rest)[1..] == rest;
    if cats != [] {
      CategoryTotalCons(c, rest, cats[1..]);
    }
  }

  /** Counting each case under every listed category, when the categories
      are distinct and include every case's category, counts every case once. */
  lemma {:induction false} CategoriesCover(inRange: seq<CaseRec>, cats: seq<string>)
    requires Seqs.Distinct(cats)
    requires forall i :: 0 <= i < |inRange| ==> inRange[i].category in cats
    ensures CategoryTotal(inRange, cats) == |inRange|
  {
    if inRange == [] {
      CategoryTotalNone(cats);
    } else {
      CategoriesCover(inRange[1..], cats);
      assert inRange == [inRange[0]] + inRange[1..];
      CategoryTotalCons(inRange[0], inRange[1..], cats);
      HitsDistinct(cats, inRange[0].category);
    }
  }

  lemma {:induction false} RowsTotal(inRange: seq<CaseRec>, cats: seq<string>)
    ensures CellTotal(Rows(inRange, cats)) == CategoryTotal(inRange, cats)
  {
    if cats != [] {
      RowsTotal(inRange, cats[1..]);
      RowTotalIsCategoryCount(inRange, cats[0]);
      assert Rows(inRange, cats)[1..] == Rows(inRange, cats[1..]);
    }
  }

  /** Each in-range case is counted in exactly one cell, so the matrix adds
      up to the number of in-range cases, as the funnel does. */
  lemma HeatmapTotal(inRange: seq<CaseRec>)
    ensures CellTotal(Heatmap(inRange)) == |inRange|
  {
    var cats := Categories(inRange);
    forall i | 0 <= i < |inRange| ensures inRange[i].category in cats {
      assert Keys(inRange, CategoryOf)[i] == inRange[i].category;
    }
    CategoriesCover(inRange, cats);
    RowsTotal(inRange, cats);
  }

  /** The rows' categories are strictly ascending and are exactly the
      categories of the in-range cases. */
  lemma HeatmapRows(inRange: seq<CaseRec>)
    ensures var h := Heatmap(inRange);
            (forall i, j :: 0 <= i < j < |h| ==>
               Seqs.StrLe(h[i].category, h[j].category) && h[i].category != h[j].category)
            && forall k :: (exists i :: 0 <= i < |h| && h[i].category == k) <==> k in Keys(inRange, CategoryOf)
  {
    var cats := Categories(inRange);
    var h := Heatmap(inRange);
    forall k ensures (exists i :: 0 <= i < |h| && h[i].category == k) <==> k in Keys(inRange, CategoryOf) {
      if k in cats {
        var i :| 0 <= i < |cats| && cats[i] == k;
        assert h[i].category == k;
      }
    }
  }
}
