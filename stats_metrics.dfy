/** The performance section and the document-health section of
    `/insights` (backend/routes/stats.js:222-261, 333-340): resolution rate,
    average days to close, task on-time rate, case outcomes and documents by
    review status, each computed over the in-range records. */
module StatsMetrics {
  import opened Common
  import opened Records
  import opened Tally
  import Numeric
  import Seqs
  import Text

  const DayMs: int := 86400000

  predicate IsClosed(c: CaseRec) {
    c.status == Closed
  }

  /** `casesInRange.filter(c => c.status === 'Closed')`. */
  function ClosedCases(inRange: seq<CaseRec>): (r: seq<CaseRec>)
    ensures forall c :: c in r <==> c in inRange && c.status == Closed
  {
    Seqs.Filter(inRange, IsClosed)
  }

  /** Percentage of the in-range cases that are closed. */
  function ResolutionRate(inRange: seq<CaseRec>): int {
    Numeric.Percent(|ClosedCases(inRange)|, |inRange|)
  }

  /** The rate is a percentage: 0 with no case in range, 100 when every case
      in range is closed. */
  lemma ResolutionRateRange(inRange: seq<CaseRec>)
    ensures 0 <= ResolutionRate(inRange) <= 100
    ensures inRange == [] ==> ResolutionRate(inRange) == 0
    ensures inRange != [] && (forall i :: 0 <= i < |inRange| ==> inRange[i].status == Closed)
            ==> ResolutionRate(inRange) == 100
  {
    Numeric.PercentBounds(|ClosedCases(inRange)|, |inRange|);
    if inRange != [] && forall i :: 0 <= i < |inRange| ==> inRange[i].status == Closed {
      Seqs.FilterKeepsAll(inRange, IsClosed);
      Numeric.PercentOfWhole(|inRange|);
    }
  }

  // ---------------------------------------------------------------------------
  // Average days to close

  /** `c.filedOn && c.updatedAt`. */
  predicate BothDated(c: CaseRec) {
    c.filedOn.Some? && c.updatedAt.Some?
  }

  /** `Math.round((updatedAt - filedOn) / 86400000)`: the whole days between
      filing and last update, halves rounded up. */
  function DayCount(c: CaseRec): (r: int)
    requires BothDated(c)
    ensures 2 * DayMs * r <= 2 * (c.updatedAt.value - c.filedOn.value) + DayMs < 2 * DayMs * r + 2 * DayMs
  {
    Numeric.RoundDiv(c.updatedAt.value - c.filedOn.value, DayMs)
  }

  /** The days from filing to last update of each closed case carrying both
      dates, each rounded to a whole day, in order. */
  function DaysToClose(closed: seq<CaseRec>): (r: seq<int>)
    ensures |r| <= |closed|
  {
    if closed == [] then []
    else
      var c := closed[0];
      (if BothDated(c) then [DayCount(c)] else []) + DaysToClose(closed[1..])
  }

  /** The day counts are the `filter` of the closed cases to those carrying
      both dates, then the `map` of each to its rounded day count. */
  lemma {:induction false} DaysToCloseIsFilterMap(closed: seq<CaseRec>)
    ensures |DaysToClose(closed)| == |Seqs.Filter(closed, BothDated)|
    ensures forall i :: 0 <= i < |DaysToClose(closed)| ==>
      BothDated(Seqs.Filter(closed, BothDated)[i]) &&
      DaysToClose(closed)[i] == DayCount(Seqs.Filter(closed, BothDated)[i])
  {
    if closed != [] {
      var c := closed[0];
      var rest := closed[1..];
      DaysToCloseIsFilterMap(rest);
      var d, dr := DaysToClose(closed), DaysToClose(rest);
      var f, fr := Seqs.Filter(closed, BothDated), Seqs.Filter(rest, BothDated);
      if BothDated(c) {
        assert d == [DayCount(c)] + dr;
        assert f == [c] + fr;
        forall i | 0 <= i < |d| ensures BothDated(f[i]) && d[i] == DayCount(f[i]) {
          if i > 0 {
            assert d[i] == dr[i - 1] && f[i] == fr[i - 1];
          }
        }
      } else {
        assert d == dr && f == fr;
      }
    }
  }

  function Sum(s: seq<int>): int {
    if s == [] then 0 else s[0] + Sum(s[1..])
  }

  /** `Math.round(sum / n)` over the rounded day counts, 0 when there are
      none. */
  function AvgDaysToClose(closed: seq<CaseRec>): (r: int)
    ensures DaysToClose(closed) == [] ==> r == 0
    ensures var d := DaysToClose(closed);
      d != [] ==> 2 * |d| * r <= 2 * Sum(d) + |d| < 2 * |d| * r + 2 * |d|
  {
    var d := DaysToClose(closed);
    if |d| > 0 then Numeric.RoundDiv(Sum(d), |d|) else 0
  }

  lemma {:induction false} SumBounds(s: seq<int>, lo: int, hi: int)
    requires forall i :: 0 <= i < |s| ==> lo <= s[i] <= hi
    ensures lo * |s| <= Sum(s) <= hi * |s|
  {
    if s != [] {
      SumBounds(s[1..], lo, hi);
      assert lo * |s| == lo + lo * |s[1..]|;
      assert hi * |s| == hi + hi * |s[1..]|;
    }
  }

  /** The average lies between the shortest and the longest time to close. */
  lemma AvgDaysToCloseBounds(closed: seq<CaseRec>, lo: int, hi: int)
    requires DaysToClose(closed) != []
    requires forall x :: x in DaysToClose(closed) ==> lo <= x <= hi
    ensures lo <= AvgDaysToClose(closed) <= hi
  {
    var d := DaysToClose(closed);
    assert forall i :: 0 <= i < |d| ==> d[i] in d;
    SumBounds(d, lo, hi);
    Numeric.RoundedMeanBounds(Sum(d), |d|, lo, hi);
  }

  /** A closed case missing either date does not take part in the average. */
  lemma {:induction false} DaysToCloseSkipsUndated(closed: seq<CaseRec>, c: CaseRec)
    requires c.filedOn.None? || c.updatedAt.None?
    ensures DaysToClose([c] + closed) == DaysToClose(closed)
  {
    assert ([c] + closed)[1..] == closed;
  }

  // ---------------------------------------------------------------------------
  // Task on-time rate

  predicate IsDone(t: TaskRec) {
    t.stage == "Done"
  }

  /** On time unless both dates exist and resolution came after the
      deadline; a task with no deadline or no resolution date is on time. */
  predicate OnTime(t: TaskRec) {
    t.deadline.None? || t.resolvedAt.None? || t.resolvedAt.value <= t.deadline.value
  }

  /** Percentage of the completed in-range tasks that were on time. */
  function TaskOnTimeRate(inRange: seq<TaskRec>): int {
    var done := Seqs.Filter(inRange, IsDone);
    Numeric.Percent(|Seqs.Filter(done, OnTime)|, |done|)
  }

  /** The rate is a percentage, and 0 when no task in range is done. */
  lemma TaskOnTimeRateRange(inRange: seq<TaskRec>)
    ensures 0 <= TaskOnTimeRate(inRange) <= 100
    ensures (forall i :: 0 <= i < |inRange| ==> inRange[i].stage != "Done") ==> TaskOnTimeRate(inRange) == 0
  {
    var done := Seqs.Filter(inRange, IsDone);
    Numeric.PercentBounds(|Seqs.Filter(done, OnTime)|, |done|);
    if forall i :: 0 <= i < |inRange| ==> inRange[i].stage != "Done" {
      if done != [] {
        assert done[0] in inRange;
      }
    }
  }

  /** When some task is done and every done task lacks a resolution date or
      was resolved no later than its deadline, the rate is 100: a done task
      with no resolution date counts as on time. */
  lemma DoneTasksOnTime(inRange: seq<TaskRec>)
    requires exists i :: 0 <= i < |inRange| && inRange[i].stage == "Done"
    requires forall i :: 0 <= i < |inRange| && inRange[i].stage == "Done" ==>
      inRange[i].deadline.None? || inRange[i].resolvedAt.None? ||
      inRange[i].resolvedAt.value <= inRange[i].deadline.value
    ensures TaskOnTimeRate(inRange) == 100
  {
    var done := Seqs.Filter(inRange, IsDone);
    var i :| 0 <= i < |inRange| && inRange[i].stage == "Done";
    assert inRange[i] in done;
    assert forall j :: 0 <= j < |done| ==> done[j] in inRange;
    Seqs.FilterKeepsAll(done, OnTime);
    Numeric.PercentOfWhole(|done|);
  }

  // ---------------------------------------------------------------------------
  // Case outcomes

  datatype Outcome = Won | Settled | Dismissed | Lost | Other

  function OutcomeName(o: Outcome): (r: string)
    ensures r != "Resolved"
  {
    match o
    case Won => "Won"
    case Settled => "Settled"
    case Dismissed => "Dismissed"
    case Lost => "Lost"
    case Other => "Other"
  }

  /** `labels.map(l => l.toLowerCase())`. */
  function Lowered(labels: seq<string>): (r: seq<string>)
    ensures |r| == |labels|
    ensures forall i :: 0 <= i < |labels| ==> r[i] == Text.ToLower(labels[i])
  {
    seq(|labels|, i requires 0 <= i < |labels| => Text.ToLower(labels[i]))
  }

  /** The first of won, settled, dismissed, lost found among the lowercased
      labels, else Other. */
  function Classify(labels: seq<string>): (r: Outcome)
    ensures r == Won <==> "won" in Lowered(labels)
    ensures r == Settled <==> "won" !in Lowered(labels) && "settled" in Lowered(labels)
    ensures r == Dismissed <==>
      "won" !in Lowered(labels) && "settled" !in Lowered(labels) && "dismissed" in Lowered(labels)
    ensures r == Lost <==>
      "won" !in Lowered(labels) && "settled" !in Lowered(labels) && "dismissed" !in Lowered(labels) && "lost" in Lowered(labels)
    ensures r == Other <==> forall w :: w in ["won", "settled", "dismissed", "lost"] ==> w !in Lowered(labels)
  {
    var ls := Lowered(labels);
    if "won" in ls then Won
    else if "settled" in ls then Settled
    else if "dismissed" in ls then Dismissed
    else if "lost" in ls then Lost
    else Other
  }

  /** Letter case, order and repetition of labels do not matter. */
  lemma ClassifyBySet(a: seq<string>, b: seq<string>)
    requires (set l | l in Lowered(a)) == (set l | l in Lowered(b))
    ensures Classify(a) == Classify(b)
  {
    var sa := set l | l in Lowered(a);
    assert forall w :: w in Lowered(a) <==> w in sa;
  }

  function OutcomeKey(c: CaseRec): string {
    OutcomeName(Classify(c.labels))
  }

  /** `caseOutcomes`: the outcome counters in order of first occurrence, with
      a single `'Resolved'` entry when no counter exists but cases are
      closed. */
  function Outcomes(closed: seq<CaseRec>): seq<Entry<nat>> {
    var m := CountBy(closed, OutcomeKey);
    if |m| == 0 && |closed| > 0 then m + [Entry("Resolved", |closed|)] else m
  }

  /** Every closed case lands in exactly one bucket: the counters sum to the
      number of closed cases, the list is empty exactly when no case is
      closed, and the `'Resolved'` fallback never appears. */
  lemma OutcomesPartition(closed: seq<CaseRec>)
    ensures Outcomes(closed) == CountBy(closed, OutcomeKey)
    ensures SumVals(Outcomes(closed), Count) == |closed|
    ensures Outcomes(closed) == [] <==> closed == []
    ensures "Resolved" !in Names(Outcomes(closed))
  {
    CountByEmpty(closed, OutcomeKey);
    CountByTotal(closed, OutcomeKey);
    var ks := Keys(closed, OutcomeKey);
    assert "Resolved" !in ks;
  }

  /** The counter of each outcome is the number of closed cases classified
      so. */
  lemma OutcomeCounts(closed: seq<CaseRec>, o: Outcome)
    ensures Find(Outcomes(closed), OutcomeName(o))
         == if Occurrences(closed, OutcomeKey, OutcomeName(o)) > 0
            then Some(Occurrences(closed, OutcomeKey, OutcomeName(o))) else None
  {
    OutcomesPartition(closed);
    CountByFind(closed, OutcomeKey, OutcomeName(o));
  }

  /** The `forEach` over the closed cases and the fallback push. */
  method CaseOutcomes(closed: seq<CaseRec>) returns (outcomes: seq<Entry<nat>>)
    ensures outcomes == Outcomes(closed)
    ensures SumVals(outcomes, Count) == |closed|
    ensures "Resolved" !in Names(outcomes)
  {
    outcomes := CountEach(closed, OutcomeKey);
    if |outcomes| == 0 && |closed| > 0 {
      outcomes := outcomes + [Entry("Resolved", |closed|)];
    }
    OutcomesPartition(closed);
  }

  // ---------------------------------------------------------------------------
  // Documents by review status

  function ReviewStatusOf(d: DocRec): string {
    d.reviewStatus
  }

  /** `docsByStatus`: one counter per review status present, in order of
      first occurrence, adding up to the number of in-range documents. */
  method DocsByStatus(inRange: seq<DocRec>) returns (byStatus: seq<Entry<nat>>)
    ensures byStatus == CountBy(inRange, ReviewStatusOf)
    ensures Names(byStatus) == Seqs.Dedup(Keys(inRange, ReviewStatusOf))
    ensures SumVals(byStatus, Count) == |inRange|
  {
    byStatus := CountEach(inRange, ReviewStatusOf);
    CountByTotal(inRange, ReviewStatusOf);
  }
}
