/** The attorney section of `/insights` (backend/routes/stats.js:263-308):
    case workload and billable hours grouped by the store and sorted, the
    per-owner task completion tallies built in a loop, and the average case
    value derived from the workload. */
module StatsAttorneys {
  import opened Common
  import opened Records
  import opened Tally
  import Numeric
  import Seqs
  import StatsMetrics

  // ---------------------------------------------------------------------------
  // Attorney workload: `$group` by lead attorney, `$sort: { cases: -1 }`

  /** Cases led and their summed portfolio value. */
  datatype Load = Load(cases: nat, value: int)

  function AddCase(w: Load, c: CaseRec): Load {
    Load(w.cases + 1, w.value + c.portfolioValue)
  }

  function LeadOf(c: CaseRec): string {
    c.leadAttorney
  }

  function PortfolioOf(c: CaseRec): int {
    c.portfolioValue
  }

  function CasesOf(w: Load): int {
    w.cases
  }

  function ValueOf(w: Load): int {
    w.value
  }

  function ByCasesDescending(e: Entry<Load>): int {
    -(e.val.cases as int)
  }

  function AttorneyWorkload(inRange: seq<CaseRec>): seq<Entry<Load>> {
    Seqs.SortByKey(GroupBy(inRange, LeadOf, Load(0, 0), AddCase), ByCasesDescending)
  }

  /** An attorney's accumulated load counts exactly the cases they lead, and
      the value lies within those cases' smallest and largest portfolio
      values times the count. */
  lemma LoadFold(xs: seq<CaseRec>, k: string, lo: int, hi: int)
    ensures FoldKey(xs, LeadOf, k, Load(0, 0), AddCase).cases == Occurrences(xs, LeadOf, k)
    ensures (forall i :: 0 <= i < |xs| ==> lo <= xs[i].portfolioValue <= hi) ==>
            var w := FoldKey(xs, LeadOf, k, Load(0, 0), AddCase);
            lo * w.cases <= w.value <= hi * w.cases
  {
    LoadCount(xs, k);
    if forall i :: 0 <= i < |xs| ==> lo <= xs[i].portfolioValue <= hi {
      LoadBounds(xs, k, lo, hi);
    }
  }

  lemma {:induction false} LoadCount(xs: seq<CaseRec>, k: string)
    ensures FoldKey(xs, LeadOf, k, Load(0, 0), AddCase).cases == Occurrences(xs, LeadOf, k)
  {
    if xs != [] {
      LoadCount(xs[..|xs| - 1], k);
    }
  }

  lemma {:induction false} LoadBounds(xs: seq<CaseRec>, k: string, lo: int, hi: int)
    requires forall i :: 0 <= i < |xs| ==> lo <= xs[i].portfolioValue <= hi
    ensures var w := FoldKey(xs, LeadOf, k, Load(0, 0), AddCase);
            lo * w.cases <= w.value <= hi * w.cases
  {
    if xs != [] {
      var xs', x := xs[..|xs| - 1], xs[|xs| - 1];
      assert forall i :: 0 <= i < |xs'| ==> xs'[i] == xs[i];
      LoadBounds(xs', k, lo, hi);
      var w := FoldKey(xs', LeadOf, k, Load(0, 0), AddCase);
      if LeadOf(x) == k {
        assert FoldKey(xs, LeadOf, k, Load(0, 0), AddCase) == Load(w.cases + 1, w.value + x.portfolioValue);
        assert lo * (w.cases + 1) == lo * w.cases + lo;
        assert hi * (w.cases + 1) == hi * w.cases + hi;
      } else {
        assert FoldKey(xs, LeadOf, k, Load(0, 0), AddCase) == w;
      }
    }
  }

  /** Ordered by non-increasing case count. */
  lemma WorkloadSorted(inRange: seq<CaseRec>)
    ensures var w := AttorneyWorkload(inRange);
            forall i, j :: 0 <= i < j < |w| ==> w[i].val.cases >= w[j].val.cases
  {
    var w := AttorneyWorkload(inRange);
    assert Seqs.SortedBy(w, ByCasesDescending);
  }

  /** The case counts add up to the number of in-range cases and the values to
      their total portfolio value. */
  lemma WorkloadTotals(inRange: seq<CaseRec>)
    ensures SumVals(AttorneyWorkload(inRange), CasesOf) == |inRange|
    ensures SumVals(AttorneyWorkload(inRange), ValueOf) == Seqs.SumBy(inRange, PortfolioOf)
  {
    var g := GroupBy(inRange, LeadOf, Load(0, 0), AddCase);
    GroupBySum(inRange, LeadOf, Load(0, 0), AddCase, CasesOf, Seqs.One);
    Seqs.SumByOne(inRange);
    GroupBySum(inRange, LeadOf, Load(0, 0), AddCase, ValueOf, PortfolioOf);
    SumValsPermutation(g, AttorneyWorkload(inRange), CasesOf);
    SumValsPermutation(g, AttorneyWorkload(inRange), ValueOf);
  }

  /** One entry per attorney leading an in-range case, and no other. */
  lemma WorkloadNames(inRange: seq<CaseRec>)
    ensures Seqs.Distinct(Names(AttorneyWorkload(inRange)))
    ensures forall a :: a in Names(AttorneyWorkload(inRange)) <==> a in Keys(inRange, LeadOf)
  {
    var g := GroupBy(inRange, LeadOf, Load(0, 0), AddCase);
    var w := AttorneyWorkload(inRange);
    NamesAreKeys(g);
    NamesAreKeys(w);
    DistinctKeysPermutation(g, w, NameOf);
    forall a ensures a in Names(w) <==> a in Names(g) {
      SameNames(g, w, a);
    }
  }

  /** Reordered entries carry the same names. */
  lemma SameNames<V>(g: seq<Entry<V>>, w: seq<Entry<V>>, a: string)
    requires multiset(g) == multiset(w)
    ensures a in Names(w) <==> a in Names(g)
  {
    if a in Names(w) {
      var i :| 0 <= i < |w| && Names(w)[i] == a;
      assert w[i] in multiset(g);
      var j :| 0 <= j < |g| && g[j] == w[i];
      assert Names(g)[j] == a;
    }
    if a in Names(g) {
      var j :| 0 <= j < |g| && Names(g)[j] == a;
      assert g[j] in multiset(w);
      var i :| 0 <= i < |w| && w[i] == g[j];
      assert Names(w)[i] == a;
    }
  }

  /** An entry of the workload is an entry the grouping produced. */
  lemma WorkloadEntry(inRange: seq<CaseRec>, e: Entry<Load>)
    requires e in AttorneyWorkload(inRange)
    ensures e.name in Keys(inRange, LeadOf)
    ensures e.val == FoldKey(inRange, LeadOf, e.name, Load(0, 0), AddCase)
  {
    var g := GroupBy(inRange, LeadOf, Load(0, 0), AddCase);
    assert e in multiset(g);
    var i :| 0 <= i < |g| && g[i] == e;
    GroupByAt(inRange, LeadOf, Load(0, 0), AddCase, i);
  }

  /** Each entry counts exactly the cases its attorney leads. */
  lemma WorkloadCounts(inRange: seq<CaseRec>)
    ensures forall e :: e in AttorneyWorkload(inRange) ==> e.val.cases == Occurrences(inRange, LeadOf, e.name) >= 1
  {
    forall e | e in AttorneyWorkload(inRange) ensures e.val.cases == Occurrences(inRange, LeadOf, e.name) >= 1 {
      WorkloadEntry(inRange, e);
      LoadFold(inRange, e.name, 0, 0);
    }
  }

  /** `attorneyWorkload.map(a => ({ name, avgValue: a.cases > 0 ?
      Math.round(a.value / a.cases) : 0 }))`: one entry per workload entry,
      same attorney, same order. */
  function AvgCaseValue(workload: seq<Entry<Load>>): (r: seq<Entry<int>>)
    ensures |r| == |workload|
    ensures forall i :: 0 <= i < |r| ==> r[i].name == workload[i].name
    ensures forall i :: 0 <= i < |r| ==>
      r[i].val == (if workload[i].val.cases > 0 then Numeric.RoundDiv(workload[i].val.value, workload[i].val.cases) else 0)
  {
    seq(|workload|, i requires 0 <= i < |workload| =>
      var a := workload[i].val;
      Entry(workload[i].name, if a.cases > 0 then Numeric.RoundDiv(a.value, a.cases) else 0))
  }

  /** When every in-range case's portfolio value lies in `[lo, hi]`, so does
      every attorney's average case value. */
  lemma AvgCaseValueBounds(inRange: seq<CaseRec>, lo: int, hi: int)
    requires forall i :: 0 <= i < |inRange| ==> lo <= inRange[i].portfolioValue <= hi
    ensures forall e :: e in AvgCaseValue(AttorneyWorkload(inRange)) ==> lo <= e.val <= hi
  {
    var w := AttorneyWorkload(inRange);
    var r := AvgCaseValue(w);
    forall e | e in r ensures lo <= e.val <= hi {
      var i :| 0 <= i < |r| && r[i] == e;
      assert w[i] in w;
      WorkloadEntry(inRange, w[i]);
      LoadFold(inRange, w[i].name, lo, hi);
      if w[i].val.cases > 0 {
        Numeric.RoundedMeanBounds(w[i].val.value, w[i].val.cases, lo, hi);
      }
    }
  }

  // ---------------------------------------------------------------------------
  // Billable hours: `$group` by owner, `$sort: { logged: -1 }`

  datatype Hours = Hours(planned: int, logged: int)

  function AddHours(h: Hours, t: TaskRec): Hours {
    Hours(h.planned + t.plannedHours, h.logged + t.loggedHours)
  }

  function OwnerOf(t: TaskRec): string {
    t.owner
  }

  function PlannedOf(h: Hours): int {
    h.planned
  }

  function LoggedOf(h: Hours): int {
    h.logged
  }

  function TaskPlanned(t: TaskRec): int {
    t.plannedHours
  }

  function TaskLogged(t: TaskRec): int {
    t.loggedHours
  }

  function ByLoggedDescending(e: Entry<Hours>): int {
    -e.val.logged
  }

  function BillableByAttorney(inRange: seq<TaskRec>): seq<Entry<Hours>> {
    Seqs.SortByKey(GroupBy(inRange, OwnerOf, Hours(0, 0), AddHours), ByLoggedDescending)
  }

  /** Ordered by non-increasing logged hours, one entry per owner (the empty
      owner included), and no hour lost or counted twice. */
  lemma BillableFacts(inRange: seq<TaskRec>)
    ensures var b := BillableByAttorney(inRange);
            (forall i, j :: 0 <= i < j < |b| ==> b[i].val.logged >= b[j].val.logged)
            && Seqs.Distinct(Names(b))
            && SumVals(b, PlannedOf) == Seqs.SumBy(inRange, TaskPlanned)
            && SumVals(b, LoggedOf) == Seqs.SumBy(inRange, TaskLogged)
  {
    var g := GroupBy(inRange, OwnerOf, Hours(0, 0), AddHours);
    var b := BillableByAttorney(inRange);
    GroupBySum(inRange, OwnerOf, Hours(0, 0), AddHours, PlannedOf, TaskPlanned);
    GroupBySum(inRange, OwnerOf, Hours(0, 0), AddHours, LoggedOf, TaskLogged);
    SumValsPermutation(g, b, PlannedOf);
    SumValsPermutation(g, b, LoggedOf);
    NamesAreKeys(g);
    NamesAreKeys(b);
    DistinctKeysPermutation(g, b, NameOf);
  }

  // ---------------------------------------------------------------------------
  // Task completion per owner

  /** `{ total, done, onTime, late }` kept per owner. */
  datatype Completion = Completion(total: nat, done: nat, onTime: nat, late: nat)

  /** Resolved after a deadline it had: the complement of `OnTime`. */
  predicate Late(t: TaskRec) {
    t.deadline.Some? && t.resolvedAt.Some? && t.resolvedAt.value > t.deadline.value
  }

  lemma LateIsNotOnTime(t: TaskRec)
    ensures Late(t) <==> !StatsMetrics.OnTime(t)
  {
  }

  /** Owned by `k` and Done. */
  function DoneOf(k: string): TaskRec -> bool {
    (t: TaskRec) => t.owner == k && t.stage == "Done"
  }

  /** Owned by `k`, Done, and resolved after its deadline. */
  function LateOf(k: string): TaskRec -> bool {
    (t: TaskRec) => t.owner == k && t.stage == "Done" && Late(t)
  }

  function AddTask(v: Completion, t: TaskRec): Completion {
    if t.stage == "Done" then
      Completion(v.total + 1, v.done + 1,
        v.onTime + (if Late(t) then 0 else 1), v.late + (if Late(t) then 1 else 0))
    else
      Completion(v.total + 1, v.done, v.onTime, v.late)
  }

  predicate HasOwner(t: TaskRec) {
    t.owner != ""
  }

  datatype CompletionRow = CompletionRow(name: string, onTime: nat, late: nat, pending: int, rate: int)

  function ToRow(e: Entry<Completion>): CompletionRow {
    CompletionRow(e.name, e.val.onTime, e.val.late, e.val.total - e.val.done,
      Numeric.Percent(e.val.done, e.val.total))
  }

  function RowName(r: CompletionRow): string {
    r.name
  }

  function ByRateDescending(r: CompletionRow): int {
    -r.rate
  }

  function Owned(inRange: seq<TaskRec>): seq<TaskRec> {
    Seqs.Filter(inRange, HasOwner)
  }

  function Tallies(inRange: seq<TaskRec>): seq<Entry<Completion>> {
    GroupBy(Owned(inRange), OwnerOf, Completion(0, 0, 0, 0), AddTask)
  }

  /** `Object.entries(tasksByAttorney).map(...).sort((a, b) => b.rate - a.rate)`. */
  function CompletionRows(tallies: seq<Entry<Completion>>): seq<CompletionRow> {
    var rows := seq(|tallies|, i requires 0 <= i < |tallies| => ToRow(tallies[i]));
    Seqs.SortByKey(rows, ByRateDescending)
  }

  /** One more task updates its owner's tally, or nothing when unowned. */
  lemma TalliesStep(xs: seq<TaskRec>, i: int)
    requires 0 <= i < |xs|
    ensures Tallies(xs[..i + 1])
         == if xs[i].owner != "" then Upsert(Tallies(xs[..i]), xs[i].owner, Completion(0, 0, 0, 0), AddTask, xs[i])
            else Tallies(xs[..i])
  {
    var t := xs[i];
    var owned := Owned(xs[..i]);
    assert xs[..i + 1] == xs[..i] + [t];
    Seqs.FilterConcat(xs[..i], [t], HasOwner);
    assert Seqs.Filter([t], HasOwner) == if HasOwner(t) then [t] else [];
    if t.owner != "" {
      assert Owned(xs[..i + 1]) == owned + [t];
      Tally.GroupByAppend(owned, t, OwnerOf, Completion(0, 0, 0, 0), AddTask);
    } else {
      assert Owned(xs[..i + 1]) == owned + [];
      assert owned + [] == owned;
    }
  }

  /** The `forEach` that fills `tasksByAttorney`, skipping unowned tasks, and
      the rows derived from it. */
  method TaskCompletionByAttorney(inRange: seq<TaskRec>) returns (rows: seq<CompletionRow>)
    ensures rows == CompletionRows(Tallies(inRange))
  {
    var m: seq<Entry<Completion>> := [];
    for i := 0 to |inRange|
      invariant m == Tallies(inRange[..i])
    {
      TalliesStep(inRange, i);
      if inRange[i].owner != "" {
        m := Upsert(m, inRange[i].owner, Completion(0, 0, 0, 0), AddTask, inRange[i]);
      }
    }
    assert inRange[..|inRange|] == inRange;
    rows := CompletionRows(m);
  }

  /** One owner's tally: every owned task counted once in `total`, `done`
      the owner's Done tasks, `late` those of them resolved after their
      deadline, and `onTime` the rest of the done ones. */
  lemma {:induction false} CompletionFold(xs: seq<TaskRec>, k: string)
    ensures var v := FoldKey(xs, OwnerOf, k, Completion(0, 0, 0, 0), AddTask);
            v.total == Occurrences(xs, OwnerOf, k) && v.onTime + v.late == v.done <= v.total
            && v.done == Seqs.Count(xs, DoneOf(k)) && v.late == Seqs.Count(xs, LateOf(k))
  {
    if xs != [] {
      CompletionFold(xs[..|xs| - 1], k);
      Seqs.CountLast(xs, DoneOf(k));
      Seqs.CountLast(xs, LateOf(k));
    }
  }

  /** Counting an owner's tasks among the owned ones is counting them among
      all tasks, since the owner is not empty. */
  lemma OwnedCount(inRange: seq<TaskRec>, k: string, p: TaskRec -> bool)
    requires k != ""
    requires forall t :: p(t) ==> t.owner == k
    ensures Seqs.Count(Owned(inRange), p) == Seqs.Count(inRange, p)
  {
    Seqs.FilterConj(inRange, HasOwner, p, p);
  }

  /** A row is made from an entry the grouping produced. */
  lemma RowEntry(inRange: seq<TaskRec>, r: CompletionRow)
    requires r in CompletionRows(Tallies(inRange))
    ensures exists e :: (e in Tallies(inRange) && r == ToRow(e)
                         && e.name in Keys(Owned(inRange), OwnerOf)
                         && e.val == FoldKey(Owned(inRange), OwnerOf, e.name, Completion(0, 0, 0, 0), AddTask))
  {
    var g := Tallies(inRange);
    var unsorted := seq(|g|, i requires 0 <= i < |g| => ToRow(g[i]));
    assert r in multiset(unsorted);
    var i :| 0 <= i < |unsorted| && unsorted[i] == r;
    GroupByAt(Owned(inRange), OwnerOf, Completion(0, 0, 0, 0), AddTask, i);
    assert g[i] in g;
  }

  /** What a completion row says about the owner it names. */
  predicate RowAccounts(inRange: seq<TaskRec>, r: CompletionRow) {
    r.name != ""
    && r.pending >= 0
    && r.onTime + r.late + r.pending == Occurrences(Owned(inRange), OwnerOf, r.name) >= 1
    && 0 <= r.rate <= 100
    && r.onTime + r.late == Seqs.Count(inRange, DoneOf(r.name))
    && r.late == Seqs.Count(inRange, LateOf(r.name))
    && r.rate == Numeric.Percent(r.onTime + r.late, r.onTime + r.late + r.pending)
  }

  /** The row of one grouped entry accounts for its owner's tasks. */
  lemma EntryRowAccounts(inRange: seq<TaskRec>, e: Entry<Completion>)
    requires e.name in Keys(Owned(inRange), OwnerOf)
    requires e.val == FoldKey(Owned(inRange), OwnerOf, e.name, Completion(0, 0, 0, 0), AddTask)
    ensures RowAccounts(inRange, ToRow(e))
  {
    var owned := Owned(inRange);
    CompletionFold(owned, e.name);
    Numeric.PercentBounds(e.val.done, e.val.total);
    var j :| 0 <= j < |owned| && Keys(owned, OwnerOf)[j] == e.name;
    assert owned[j] in owned;
    OwnedCount(inRange, e.name, DoneOf(e.name));
    OwnedCount(inRange, e.name, LateOf(e.name));
    RowRate(e);
  }

  /** A row's rate is the rounded share of its done tasks. */
  lemma RowRate(e: Entry<Completion>)
    requires e.val.onTime + e.val.late == e.val.done <= e.val.total
    ensures var r := ToRow(e);
            r.pending >= 0 && r.rate == Numeric.Percent(r.onTime + r.late, r.onTime + r.late + r.pending)
  {
  }

  /** Each row belongs to a non-empty owner whose tasks it accounts for:
      on time, late and pending add up to the owner's tasks, on time plus
      late are the owner's Done tasks, late the Done ones resolved after their
      deadline, and the rate is the rounded percentage of done among all. */
  lemma CompletionRowsSound(inRange: seq<TaskRec>)
    ensures forall r :: r in CompletionRows(Tallies(inRange)) ==>
              r.name != ""
              && r.pending >= 0
              && r.onTime + r.late + r.pending == Occurrences(Owned(inRange), OwnerOf, r.name) >= 1
              && 0 <= r.rate <= 100
              && r.onTime + r.late == Seqs.Count(inRange, DoneOf(r.name))
              && r.late == Seqs.Count(inRange, LateOf(r.name))
              && r.rate == Numeric.Percent(r.onTime + r.late, r.onTime + r.late + r.pending)
  {
    forall r | r in CompletionRows(Tallies(inRange)) ensures RowAccounts(inRange, r) {
      RowEntry(inRange, r);
      var e :| e in Tallies(inRange) && r == ToRow(e) && e.name in Keys(Owned(inRange), OwnerOf)
               && e.val == FoldKey(Owned(inRange), OwnerOf, e.name, Completion(0, 0, 0, 0), AddTask);
      EntryRowAccounts(inRange, e);
    }
  }

  /** The rows are ordered by non-increasing rate and no owner appears
      twice. */
  lemma CompletionRowsOrder(inRange: seq<TaskRec>)
    ensures var rows := CompletionRows(Tallies(inRange));
            (forall i, j :: 0 <= i < j < |rows| ==> rows[i].rate >= rows[j].rate)
            && Seqs.Distinct(Keys(rows, RowName))
  {
    var g := Tallies(inRange);
    var unsorted := seq(|g|, i requires 0 <= i < |g| => ToRow(g[i]));
    var rows := CompletionRows(g);
    assert Seqs.SortedBy(rows, ByRateDescending);
    NamesAreKeys(g);
    assert Keys(unsorted, RowName) == Names(g);
    DistinctKeysPermutation(unsorted, rows, RowName);
  }
}
