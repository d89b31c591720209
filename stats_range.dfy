/** The `/insights` request parameters (backend/routes/stats.js:196-218): the
    range token chooses the lower date bound, and the optional attorney and
    category narrow the three collections the analytics read. */
module StatsRange {
  import opened Common
  import opened Records
  import Seqs

  /** The instants `now` minus one, three and six months and one year, as the
      JavaScript `Date` arithmetic computes them; inputs of the model. */
  datatype Anchors = Anchors(oneMonthAgo: int, threeMonthsAgo: int, sixMonthsAgo: int, oneYearAgo: int)

  predicate Chronological(a: Anchors) {
    0 <= a.oneYearAgo <= a.sixMonthsAgo <= a.threeMonthsAgo <= a.oneMonthAgo
  }

  /** The query's `range` parameter, `'12m'` when absent. */
  function RangeToken(range: Option<string>): string {
    range.GetOr("12m")
  }

  /** The lower date bound for a range token; `'all'` is the epoch. */
  function DateFrom(range: Option<string>, a: Anchors): (r: int)
    ensures RangeToken(range) == "all" ==> r == 0
  {
    match RangeToken(range)
    case "1m" => a.oneMonthAgo
    case "3m" => a.threeMonthsAgo
    case "6m" => a.sixMonthsAgo
    case "12m" => a.oneYearAgo
    case "all" => 0
    case _ => a.oneYearAgo
  }

  /** A token the switch does not list behaves as `'12m'`, and so does a
      missing one. */
  lemma UnknownRangeIsYear(t: string, a: Anchors)
    requires t !in ["1m", "3m", "6m", "12m", "all"]
    ensures DateFrom(Some(t), a) == DateFrom(Some("12m"), a) == DateFrom(None, a)
  {
  }

  /** The longer the range, the earlier its bound, `'all'` being the
      earliest. */
  lemma DateFromWidens(a: Anchors)
    requires Chronological(a)
    ensures DateFrom(Some("all"), a) <= DateFrom(Some("12m"), a) <= DateFrom(Some("6m"), a)
         <= DateFrom(Some("3m"), a) <= DateFrom(Some("1m"), a)
  {
  }

  /** `(v) ? match : everything`: an empty filter value does not filter. */
  predicate Matches(filter: string, value: string) {
    filter == "" || value == filter
  }

  /** `caseMatch`: filed on or after the bound (a case with no filing date
      never is), led by the attorney and in the category when given. */
  predicate CaseMatch(c: CaseRec, from: int, attorney: string, category: string) {
    c.filedOn.Some? && c.filedOn.value >= from
    && Matches(attorney, c.leadAttorney) && Matches(category, c.category)
  }

  /** `taskMatch`: the attorney filter applies to the task's owner. */
  predicate TaskMatch(t: TaskRec, from: int, attorney: string) {
    t.deadline.Some? && t.deadline.value >= from && Matches(attorney, t.owner)
  }

  /** `docMatch`: the attorney filter applies to the document's author. */
  predicate DocMatch(d: DocRec, from: int, attorney: string) {
    d.dueBy.Some? && d.dueBy.value >= from && Matches(attorney, d.preparedBy)
  }

  function CasesInRange(cases: seq<CaseRec>, from: int, attorney: string, category: string): (r: seq<CaseRec>)
    ensures forall c :: c in r <==> c in cases && CaseMatch(c, from, attorney, category)
  {
    Seqs.Filter(cases, c => CaseMatch(c, from, attorney, category))
  }

  function TasksInRange(tasks: seq<TaskRec>, from: int, attorney: string): (r: seq<TaskRec>)
    ensures forall t :: t in r <==> t in tasks && TaskMatch(t, from, attorney)
  {
    Seqs.Filter(tasks, t => TaskMatch(t, from, attorney))
  }

  function DocsInRange(docs: seq<DocRec>, from: int, attorney: string): (r: seq<DocRec>)
    ensures forall d :: d in r <==> d in docs && DocMatch(d, from, attorney)
  {
    Seqs.Filter(docs, d => DocMatch(d, from, attorney))
  }

  /** Naming an attorney keeps, of the cases the other filters select, those
      the attorney leads, in the same order. */
  lemma AttorneyNarrowsCases(cases: seq<CaseRec>, from: int, attorney: string, category: string)
    requires attorney != ""
    ensures CasesInRange(cases, from, attorney, category)
         == Seqs.Filter(CasesInRange(cases, from, "", category), (c: CaseRec) => c.leadAttorney == attorney)
  {
    Seqs.FilterConj(cases, c => CaseMatch(c, from, "", category), (c: CaseRec) => c.leadAttorney == attorney,
      c => CaseMatch(c, from, attorney, category));
  }

  /** Naming an attorney keeps the tasks that attorney owns. */
  lemma AttorneyNarrowsTasks(tasks: seq<TaskRec>, from: int, attorney: string)
    requires attorney != ""
    ensures TasksInRange(tasks, from, attorney)
         == Seqs.Filter(TasksInRange(tasks, from, ""), (t: TaskRec) => t.owner == attorney)
  {
    Seqs.FilterConj(tasks, t => TaskMatch(t, from, ""), (t: TaskRec) => t.owner == attorney,
      t => TaskMatch(t, from, attorney));
  }

  /** Naming an attorney keeps the documents that attorney prepared. */
  lemma AttorneyNarrowsDocs(docs: seq<DocRec>, from: int, attorney: string)
    requires attorney != ""
    ensures DocsInRange(docs, from, attorney)
         == Seqs.Filter(DocsInRange(docs, from, ""), (d: DocRec) => d.preparedBy == attorney)
  {
    Seqs.FilterConj(docs, d => DocMatch(d, from, ""), (d: DocRec) => d.preparedBy == attorney,
      d => DocMatch(d, from, attorney));
  }

  /** The filter choices: every lead attorney and every category over all
      cases, each once, sorted. */
  function FilterOptions(cases: seq<CaseRec>): (r: (seq<string>, seq<string>))
    ensures Seqs.SortedStrings(r.0) && Seqs.Distinct(r.0)
    ensures Seqs.SortedStrings(r.1) && Seqs.Distinct(r.1)
    ensures forall a :: a in r.0 <==> exists c :: c in cases && c.leadAttorney == a
    ensures forall k :: k in r.1 <==> exists c :: c in cases && c.category == k
  {
    var attorneys := seq(|cases|, i requires 0 <= i < |cases| => cases[i].leadAttorney);
    var categories := seq(|cases|, i requires 0 <= i < |cases| => cases[i].category);
    forall a ensures a in attorneys <==> exists c :: c in cases && c.leadAttorney == a {
      if a in attorneys {
        var i :| 0 <= i < |attorneys| && attorneys[i] == a;
        assert cases[i] in cases;
      }
      if c :| c in cases && c.leadAttorney == a {
        var i :| 0 <= i < |cases| && cases[i] == c;
        assert attorneys[i] == a;
      }
    }
    forall k ensures k in categories <==> exists c :: c in cases && c.category == k {
      if k in categories {
        var i :| 0 <= i < |categories| && categories[i] == k;
        assert cases[i] in cases;
      }
      if c :| c in cases && c.category == k {
        var i :| 0 <= i < |cases| && cases[i] == c;
        assert categories[i] == k;
      }
    }
    (Seqs.SortStrings(Seqs.Dedup(attorneys)), Seqs.SortStrings(Seqs.Dedup(categories)))
  }
}
