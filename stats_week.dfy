/** The personal "this week's deadlines" timeline of the dashboard statistics
    (backend/routes/stats.js:110-117, 139-165): the user whose work is shown,
    the three week queries and their merge into one list sorted by date. */
module StatsWeek {
  import opened Common
  import opened Records
  import Seqs

  /** The `x-user-name` header when it is non-empty, otherwise the lead
      attorney of the first stored case (`firstLead`, `None` when there is
      no case), otherwise `''`. */
  function ResolveUser(header: string, firstLead: Option<string>): (user: string)
    ensures header != "" ==> user == header
    ensures header == "" && firstLead.Some? ==> user == firstLead.value
    ensures header == "" && firstLead.None? ==> user == ""
  {
    if header != "" then header else firstLead.GetOr("")
  }

  datatype DeadlineKind = HearingItem | TaskItem | DocumentItem

  /** One timeline entry. `meta` is the court, the task urgency or the
      document type; `detail` is the case ref, the task stage or the review
      status. */
  datatype Deadline = Deadline(kind: DeadlineKind, text: string, date: int, meta: string, detail: string)

  function DateOf(d: Deadline): int {
    d.date
  }

  /** The tie order hearing, task, document. */
  function KindRank(k: DeadlineKind): int {
    match k
    case HearingItem => 0
    case TaskItem => 1
    case DocumentItem => 2
  }

  predicate InWeek(date: Option<int>, now: int, weekEnd: int) {
    date.Some? && now <= date.value <= weekEnd
  }

  /** The three week queries. */
  predicate HearingDue(c: CaseRec, user: string, now: int, weekEnd: int) {
    c.leadAttorney == user && InWeek(c.hearingDate, now, weekEnd)
  }

  predicate TaskDue(t: TaskRec, user: string, now: int, weekEnd: int) {
    t.owner == user && InWeek(t.deadline, now, weekEnd) && t.stage != "Done" && t.stage != "Dropped"
  }

  predicate DocDue(d: DocRec, user: string, now: int, weekEnd: int) {
    d.preparedBy == user && InWeek(d.dueBy, now, weekEnd) && d.reviewStatus != "Filed" && d.reviewStatus != "Approved"
  }

  function HearingItemOf(c: CaseRec): Deadline
    requires c.hearingDate.Some?
  {
    Deadline(HearingItem, c.title, c.hearingDate.value, c.court, c.ref)
  }

  function TaskItemOf(t: TaskRec): Deadline
    requires t.deadline.Some?
  {
    Deadline(TaskItem, t.title, t.deadline.value, UrgencyName(t.urgency), t.stage)
  }

  function DocItemOf(d: DocRec): Deadline
    requires d.dueBy.Some?
  {
    Deadline(DocumentItem, d.name, d.dueBy.value, d.docType, d.reviewStatus)
  }

  function DueHearings(cases: seq<CaseRec>, user: string, now: int, weekEnd: int): seq<CaseRec> {
    Seqs.Filter(cases, (c: CaseRec) => HearingDue(c, user, now, weekEnd))
  }

  function DueTasks(tasks: seq<TaskRec>, user: string, now: int, weekEnd: int): seq<TaskRec> {
    Seqs.Filter(tasks, (t: TaskRec) => TaskDue(t, user, now, weekEnd))
  }

  function DueDocs(docs: seq<DocRec>, user: string, now: int, weekEnd: int): seq<DocRec> {
    Seqs.Filter(docs, (d: DocRec) => DocDue(d, user, now, weekEnd))
  }

  /** `weekHearings.map(...)`: one hearing entry per qualifying case, in
      query order, each dated within the week. */
  function Hearings(cases: seq<CaseRec>, user: string, now: int, weekEnd: int): (r: seq<Deadline>)
    ensures var q := DueHearings(cases, user, now, weekEnd);
            |r| == |q| && forall i :: 0 <= i < |q| ==> q[i].hearingDate.Some? && r[i] == HearingItemOf(q[i])
    ensures forall x :: x in r ==> x.kind == HearingItem && now <= x.date <= weekEnd
  {
    var q := DueHearings(cases, user, now, weekEnd);
    assert forall i :: 0 <= i < |q| ==> q[i] in q;
    seq(|q|, i requires 0 <= i < |q| => HearingItemOf(q[i]))
  }

  function Tasks(tasks: seq<TaskRec>, user: string, now: int, weekEnd: int): (r: seq<Deadline>)
    ensures var q := DueTasks(tasks, user, now, weekEnd);
            |r| == |q| && forall i :: 0 <= i < |q| ==> q[i].deadline.Some? && r[i] == TaskItemOf(q[i])
    ensures forall x :: x in r ==> x.kind == TaskItem && now <= x.date <= weekEnd
  {
    var q := DueTasks(tasks, user, now, weekEnd);
    assert forall i :: 0 <= i < |q| ==> q[i] in q;
    seq(|q|, i requires 0 <= i < |q| => TaskItemOf(q[i]))
  }

  function Docs(docs: seq<DocRec>, user: string, now: int, weekEnd: int): (r: seq<Deadline>)
    ensures var q := DueDocs(docs, user, now, weekEnd);
            |r| == |q| && forall i :: 0 <= i < |q| ==> q[i].dueBy.Some? && r[i] == DocItemOf(q[i])
    ensures forall x :: x in r ==> x.kind == DocumentItem && now <= x.date <= weekEnd
  {
    var q := DueDocs(docs, user, now, weekEnd);
    assert forall i :: 0 <= i < |q| ==> q[i] in q;
    seq(|q|, i requires 0 <= i < |q| => DocItemOf(q[i]))
  }

  /** `weekDeadlines`: hearings, then tasks, then documents, sorted by date
      with the stable array sort. `weekEnd` is seven days after `now`. */
  function WeekDeadlines(cases: seq<CaseRec>, tasks: seq<TaskRec>, docs: seq<DocRec>,
                         user: string, now: int, weekEnd: int): seq<Deadline> {
    Seqs.SortByKey(Hearings(cases, user, now, weekEnd) + Tasks(tasks, user, now, weekEnd)
                   + Docs(docs, user, now, weekEnd), DateOf)
  }

  /** The timeline holds every in-week hearing, task and document exactly
      once, nothing else, and is in ascending date order. */
  lemma WeekDeadlinesContents(cases: seq<CaseRec>, tasks: seq<TaskRec>, docs: seq<DocRec>,
                              user: string, now: int, weekEnd: int)
    ensures var r := WeekDeadlines(cases, tasks, docs, user, now, weekEnd);
            Seqs.SortedBy(r, DateOf)
            && multiset(r) == multiset(Hearings(cases, user, now, weekEnd))
                              + multiset(Tasks(tasks, user, now, weekEnd))
                              + multiset(Docs(docs, user, now, weekEnd))
            && |r| == |DueHearings(cases, user, now, weekEnd)| + |DueTasks(tasks, user, now, weekEnd)|
                      + |DueDocs(docs, user, now, weekEnd)|
  {
  }

  /** Every entry falls inside the week. */
  lemma {:induction false} WeekDeadlinesInWeek(cases: seq<CaseRec>, tasks: seq<TaskRec>, docs: seq<DocRec>,
                                               user: string, now: int, weekEnd: int)
    ensures forall x :: x in WeekDeadlines(cases, tasks, docs, user, now, weekEnd) ==> now <= x.date <= weekEnd
  {
    var h, t, d := Hearings(cases, user, now, weekEnd), Tasks(tasks, user, now, weekEnd), Docs(docs, user, now, weekEnd);
    var r := WeekDeadlines(cases, tasks, docs, user, now, weekEnd);
    forall x | x in r ensures now <= x.date <= weekEnd {
      assert x in multiset(r);
      assert x in multiset(h + t + d);
      assert x in h + t + d;
    }
  }

  /** Entries on the same date keep the order hearings, tasks, documents,
      and within each kind the query order. */
  lemma {:induction false} WeekDeadlinesTies(cases: seq<CaseRec>, tasks: seq<TaskRec>, docs: seq<DocRec>,
                                             user: string, now: int, weekEnd: int, date: int)
    ensures Seqs.KeyRun(WeekDeadlines(cases, tasks, docs, user, now, weekEnd), DateOf, date)
         == Seqs.KeyRun(Hearings(cases, user, now, weekEnd), DateOf, date)
          + Seqs.KeyRun(Tasks(tasks, user, now, weekEnd), DateOf, date)
          + Seqs.KeyRun(Docs(docs, user, now, weekEnd), DateOf, date)
  {
    var h, t, d := Hearings(cases, user, now, weekEnd), Tasks(tasks, user, now, weekEnd), Docs(docs, user, now, weekEnd);
    Seqs.SortByKeyStable(h + t + d, DateOf, date);
    Seqs.KeyRunConcat(h + t, d, DateOf, date);
    Seqs.KeyRunConcat(h, t, DateOf, date);
  }

  lemma {:induction false} KeyRunKinds(s: seq<Deadline>, date: int, k: DeadlineKind)
    requires forall x :: x in s ==> x.kind == k
    ensures forall x :: x in Seqs.KeyRun(s, DateOf, date) ==> x.kind == k && x.date == date
  {
    if s != [] {
      KeyRunKinds(s[1..], date, k);
    }
  }

  /** Among entries on the same date, no task precedes a hearing and no
      document precedes a task or a hearing. */
  lemma WeekDeadlinesTieOrder(cases: seq<CaseRec>, tasks: seq<TaskRec>, docs: seq<DocRec>,
                              user: string, now: int, weekEnd: int, date: int)
    ensures var run := Seqs.KeyRun(WeekDeadlines(cases, tasks, docs, user, now, weekEnd), DateOf, date);
            forall i, j :: 0 <= i < j < |run| ==> KindRank(run[i].kind) <= KindRank(run[j].kind)
  {
    var h, t, d := Hearings(cases, user, now, weekEnd), Tasks(tasks, user, now, weekEnd), Docs(docs, user, now, weekEnd);
    WeekDeadlinesTies(cases, tasks, docs, user, now, weekEnd, date);
    KeyRunKinds(h, date, HearingItem);
    KeyRunKinds(t, date, TaskItem);
    KeyRunKinds(d, date, DocumentItem);
    RankedRuns(Seqs.KeyRun(h, DateOf, date), Seqs.KeyRun(t, DateOf, date), Seqs.KeyRun(d, DateOf, date));
  }

  /** Hearings, then tasks, then documents are in ascending kind rank. */
  lemma RankedRuns(rh: seq<Deadline>, rt: seq<Deadline>, rd: seq<Deadline>)
    requires forall x :: x in rh ==> x.kind == HearingItem
    requires forall x :: x in rt ==> x.kind == TaskItem
    requires forall x :: x in rd ==> x.kind == DocumentItem
    ensures var run := rh + rt + rd;
            forall i, j :: 0 <= i < j < |run| ==> KindRank(run[i].kind) <= KindRank(run[j].kind)
  {
    var run := rh + rt + rd;
    forall i | 0 <= i < |run| ensures KindRank(run[i].kind) == (if i < |rh| then 0 else if i < |rh| + |rt| then 1 else 2) {
      if i < |rh| {
        assert run[i] == rh[i] && rh[i] in rh;
      } else if i < |rh| + |rt| {
        assert run[i] == rt[i - |rh|] && rt[i - |rh|] in rt;
      } else {
        assert run[i] == rd[i - |rh| - |rt|] && rd[i - |rh| - |rt|] in rd;
      }
    }
  }
}
