/** The month view feed (backend/routes/calendar.js): the month's date range
    and the event list assembled by four successive loops, one per query. */
module Calendar {
  import opened Common
  import opened Records
  import Seqs

  const DayMs: int := 86400000

  /** `parseInt(x) || current`: a missing or unparsable number (`None`) and a
      parsed 0 both fall back to the current value. */
  function ParsedOr(parsed: Option<int>, current: int): (r: int)
    ensures r == current || (parsed.Some? && r == parsed.value && r != 0)
    ensures parsed.Some? && parsed.value != 0 ==> r == parsed.value
  {
    if parsed.Some? && parsed.value != 0 then parsed.value else current
  }

  /** The range `[first day 00:00:00, last day 23:59:59]`, given the first
      day's local midnight and the month's length (both from the calendar,
      which is not part of this model). */
  function MonthRange(monthStart: int, daysInMonth: nat): (r: (int, int))
    requires daysInMonth >= 1
    ensures r.0 == monthStart
    ensures r.1 - r.0 == daysInMonth * DayMs - 1000
  {
    (monthStart, monthStart + (daysInMonth - 1) * DayMs + 23 * 3600000 + 59 * 60000 + 59 * 1000)
  }

  predicate Within(d: Option<int>, lo: int, hi: int) {
    d.Some? && lo <= d.value <= hi
  }

  /** The four queries, each keeping store order. */
  function HearingsIn(cases: seq<CaseRec>, lo: int, hi: int): (r: seq<CaseRec>)
    ensures forall c :: c in r <==> c in cases && Within(c.hearingDate, lo, hi)
  {
    Seqs.Filter(cases, (c: CaseRec) => Within(c.hearingDate, lo, hi))
  }

  function FilingsIn(cases: seq<CaseRec>, lo: int, hi: int): (r: seq<CaseRec>)
    ensures forall c :: c in r <==> c in cases && Within(c.filedOn, lo, hi)
  {
    Seqs.Filter(cases, (c: CaseRec) => Within(c.filedOn, lo, hi))
  }

  function TasksIn(tasks: seq<TaskRec>, lo: int, hi: int): (r: seq<TaskRec>)
    ensures forall t :: t in r <==> t in tasks && Within(t.deadline, lo, hi)
  {
    Seqs.Filter(tasks, (t: TaskRec) => Within(t.deadline, lo, hi))
  }

  function DocsIn(docs: seq<DocRec>, lo: int, hi: int): (r: seq<DocRec>)
    ensures forall d :: d in r <==> d in docs && Within(d.dueBy, lo, hi)
  {
    Seqs.Filter(docs, (d: DocRec) => Within(d.dueBy, lo, hi))
  }

  datatype EventKind = Hearing | Filing | TaskDeadline | DocumentDue

  function KindRank(k: EventKind): int {
    match k
    case Hearing => 0
    case Filing => 1
    case TaskDeadline => 2
    case DocumentDue => 3
  }

  /** One calendar event. `date` is the record's own date field, copied as
      is; `urgency` is present on hearing and task events, `caseRef` on task
      and document events. */
  datatype Event = Event(date: Option<int>, kind: EventKind, text: string, status: string,
                         urgency: Option<Urgency>, caseRef: Option<string>)

  function CaseLabel(c: CaseRec): string {
    c.ref + " — " + c.title
  }

  function HearingEvent(c: CaseRec): Event
  {
    Event(c.hearingDate, Hearing, CaseLabel(c), StatusName(c.status), Some(c.urgency), None)
  }

  function FilingEvent(c: CaseRec): Event
  {
    Event(c.filedOn, Filing, CaseLabel(c), StatusName(c.status), None, None)
  }

  /** `t.caseId?.ref || ''`. */
  function TaskEvent(t: TaskRec): Event
  {
    Event(t.deadline, TaskDeadline, t.title, t.stage, Some(t.urgency), Some(t.caseRef.GetOr("")))
  }

  function DocEvent(d: DocRec): Event
  {
    Event(d.dueBy, DocumentDue, d.name, d.reviewStatus, None, Some(d.caseRef.GetOr("")))
  }

  function HearingEvents(cs: seq<CaseRec>): (r: seq<Event>)
    ensures |r| == |cs| && forall i :: 0 <= i < |cs| ==> r[i] == HearingEvent(cs[i])
  {
    if cs == [] then [] else HearingEvents(cs[..|cs| - 1]) + [HearingEvent(cs[|cs| - 1])]
  }

  function FilingEvents(cs: seq<CaseRec>): (r: seq<Event>)
    ensures |r| == |cs| && forall i :: 0 <= i < |cs| ==> r[i] == FilingEvent(cs[i])
  {
    if cs == [] then [] else FilingEvents(cs[..|cs| - 1]) + [FilingEvent(cs[|cs| - 1])]
  }

  function TaskEvents(ts: seq<TaskRec>): (r: seq<Event>)
    ensures |r| == |ts| && forall i :: 0 <= i < |ts| ==> r[i] == TaskEvent(ts[i])
  {
    if ts == [] then [] else TaskEvents(ts[..|ts| - 1]) + [TaskEvent(ts[|ts| - 1])]
  }

  function DocEvents(ds: seq<DocRec>): (r: seq<Event>)
    ensures |r| == |ds| && forall i :: 0 <= i < |ds| ==> r[i] == DocEvent(ds[i])
  {
    if ds == [] then [] else DocEvents(ds[..|ds| - 1]) + [DocEvent(ds[|ds| - 1])]
  }

  /** The event list the route answers with: hearings, then filings, then
      task deadlines, then document due dates. */
  function Events(cases: seq<CaseRec>, tasks: seq<TaskRec>, docs: seq<DocRec>, lo: int, hi: int): seq<Event> {
    HearingEvents(HearingsIn(cases, lo, hi)) + FilingEvents(FilingsIn(cases, lo, hi))
    + TaskEvents(TasksIn(tasks, lo, hi)) + DocEvents(DocsIn(docs, lo, hi))
  }

  /** `hearings.forEach(... => events.push(...))`. */
  method PushHearings(prefix: seq<Event>, hearings: seq<CaseRec>) returns (events: seq<Event>)
    ensures events == prefix + HearingEvents(hearings)
  {
    events := prefix;
    for i := 0 to |hearings|
      invariant events == prefix + HearingEvents(hearings[..i])
    {
      assert hearings[..i + 1][..i] == hearings[..i];
      events := events + [HearingEvent(hearings[i])];
    }
    assert hearings[..|hearings|] == hearings;
  }

  /** `filings.forEach(... => events.push(...))`. */
  method PushFilings(prefix: seq<Event>, filings: seq<CaseRec>) returns (events: seq<Event>)
    ensures events == prefix + FilingEvents(filings)
  {
    events := prefix;
    for i := 0 to |filings|
      invariant events == prefix + FilingEvents(filings[..i])
    {
      assert filings[..i + 1][..i] == filings[..i];
      events := events + [FilingEvent(filings[i])];
    }
    assert filings[..|filings|] == filings;
  }

  /** `taskDeadlines.forEach(... => events.push(...))`. */
  method PushTasks(prefix: seq<Event>, taskDeadlines: seq<TaskRec>) returns (events: seq<Event>)
    ensures events == prefix + TaskEvents(taskDeadlines)
  {
    events := prefix;
    for i := 0 to |taskDeadlines|
      invariant events == prefix + TaskEvents(taskDeadlines[..i])
    {
      assert taskDeadlines[..i + 1][..i] == taskDeadlines[..i];
      events := events + [TaskEvent(taskDeadlines[i])];
    }
    assert taskDeadlines[..|taskDeadlines|] == taskDeadlines;
  }

  /** `docDueDates.forEach(... => events.push(...))`. */
  method PushDocs(prefix: seq<Event>, docDueDates: seq<DocRec>) returns (events: seq<Event>)
    ensures events == prefix + DocEvents(docDueDates)
  {
    events := prefix;
    for i := 0 to |docDueDates|
      invariant events == prefix + DocEvents(docDueDates[..i])
    {
      assert docDueDates[..i + 1][..i] == docDueDates[..i];
      events := events + [DocEvent(docDueDates[i])];
    }
    assert docDueDates[..|docDueDates|] == docDueDates;
  }

  /** The route's assembly: the four queries, then one loop per query in
      the order hearings, filings, task deadlines, document due dates. */
  method AssembleEvents(cases: seq<CaseRec>, tasks: seq<TaskRec>, docs: seq<DocRec>, lo: int, hi: int)
    returns (events: seq<Event>)
    ensures events == Events(cases, tasks, docs, lo, hi)
  {
    var hearings, filings := HearingsIn(cases, lo, hi), FilingsIn(cases, lo, hi);
    var taskDeadlines, docDueDates := TasksIn(tasks, lo, hi), DocsIn(docs, lo, hi);
    events := PushHearings([], hearings);
    assert events == HearingEvents(hearings);
    events := PushFilings(events, filings);
    events := PushTasks(events, taskDeadlines);
    events := PushDocs(events, docDueDates);
  }

  /** One event per matched record. */
  lemma EventsCount(cases: seq<CaseRec>, tasks: seq<TaskRec>, docs: seq<DocRec>, lo: int, hi: int)
    ensures |Events(cases, tasks, docs, lo, hi)|
         == |HearingsIn(cases, lo, hi)| + |FilingsIn(cases, lo, hi)| + |TasksIn(tasks, lo, hi)| + |DocsIn(docs, lo, hi)|
  {
  }

  /** Every event is dated inside the requested range. */
  lemma EventsInRange(cases: seq<CaseRec>, tasks: seq<TaskRec>, docs: seq<DocRec>, lo: int, hi: int)
    ensures forall e :: e in Events(cases, tasks, docs, lo, hi) ==> e.date.Some? && lo <= e.date.value <= hi
  {
    var hs, fs, ts, ds := HearingsIn(cases, lo, hi), FilingsIn(cases, lo, hi), TasksIn(tasks, lo, hi), DocsIn(docs, lo, hi);
    forall e | e in Events(cases, tasks, docs, lo, hi) ensures e.date.Some? && lo <= e.date.value <= hi {
      if e in HearingEvents(hs) {
        var i :| 0 <= i < |hs| && e == HearingEvent(hs[i]);
        assert hs[i] in hs;
      } else if e in FilingEvents(fs) {
        var i :| 0 <= i < |fs| && e == FilingEvent(fs[i]);
        assert fs[i] in fs;
      } else if e in TaskEvents(ts) {
        var i :| 0 <= i < |ts| && e == TaskEvent(ts[i]);
        assert ts[i] in ts;
      } else {
        assert e in DocEvents(ds);
        var i :| 0 <= i < |ds| && e == DocEvent(ds[i]);
        assert ds[i] in ds;
      }
    }
  }

  lemma {:induction false} RankedConcat(a: seq<Event>, b: seq<Event>, c: seq<Event>, d: seq<Event>)
    requires forall k :: 0 <= k < |a| ==> KindRank(a[k].kind) == 0
    requires forall k :: 0 <= k < |b| ==> KindRank(b[k].kind) == 1
    requires forall k :: 0 <= k < |c| ==> KindRank(c[k].kind) == 2
    requires forall k :: 0 <= k < |d| ==> KindRank(d[k].kind) == 3
    ensures var ev := a + b + c + d;
            forall i, j :: 0 <= i < j < |ev| ==> KindRank(ev[i].kind) <= KindRank(ev[j].kind)
  {
    var ev := a + b + c + d;
    var x, y, z := |a|, |a| + |b|, |a| + |b| + |c|;
    forall i | 0 <= i < |ev|
      ensures KindRank(ev[i].kind) == (if i < x then 0 else if i < y then 1 else if i < z then 2 else 3)
    {
      if i < x {
        assert ev[i] == a[i];
      } else if i < y {
        assert ev[i] == b[i - x];
      } else if i < z {
        assert ev[i] == c[i - y];
      } else {
        assert ev[i] == d[i - z];
      }
    }
  }

  /** Events come grouped by kind: hearings, filings, task deadlines,
      document due dates. */
  lemma EventsGrouped(cases: seq<CaseRec>, tasks: seq<TaskRec>, docs: seq<DocRec>, lo: int, hi: int)
    ensures var ev := Events(cases, tasks, docs, lo, hi);
            forall i, j :: 0 <= i < j < |ev| ==> KindRank(ev[i].kind) <= KindRank(ev[j].kind)
  {
    var a, b := HearingEvents(HearingsIn(cases, lo, hi)), FilingEvents(FilingsIn(cases, lo, hi));
    var c, d := TaskEvents(TasksIn(tasks, lo, hi)), DocEvents(DocsIn(docs, lo, hi));
    RankedConcat(a, b, c, d);
  }

  /** Case events are hearings or filings labelled `ref — title`; task and
      document events carry the linked case's ref, `''` when none is linked. */
  lemma EventLabels(cases: seq<CaseRec>, tasks: seq<TaskRec>, docs: seq<DocRec>, lo: int, hi: int)
    ensures var ev := Events(cases, tasks, docs, lo, hi);
            forall i :: 0 <= i < |ev| ==>
              ((ev[i].kind == Hearing || ev[i].kind == Filing) ==>
                 exists c :: c in cases && ev[i].text == CaseLabel(c))
              && ((ev[i].kind == TaskDeadline || ev[i].kind == DocumentDue) ==> ev[i].caseRef.Some?)
              && (ev[i].kind == TaskDeadline ==>
                 exists t :: t in tasks && ev[i].text == t.title && ev[i].caseRef == Some(t.caseRef.GetOr("")))
              && (ev[i].kind == DocumentDue ==>
                 exists d :: d in docs && ev[i].text == d.name && ev[i].caseRef == Some(d.caseRef.GetOr("")))
  {
    var ev := Events(cases, tasks, docs, lo, hi);
    forall i | 0 <= i < |ev|
      ensures (ev[i].kind == Hearing || ev[i].kind == Filing) ==>
                exists c :: c in cases && ev[i].text == CaseLabel(c)
      ensures (ev[i].kind == TaskDeadline || ev[i].kind == DocumentDue) ==> ev[i].caseRef.Some?
      ensures ev[i].kind == TaskDeadline ==>
                exists t :: t in tasks && ev[i].text == t.title && ev[i].caseRef == Some(t.caseRef.GetOr(""))
      ensures ev[i].kind == DocumentDue ==>
                exists d :: d in docs && ev[i].text == d.name && ev[i].caseRef == Some(d.caseRef.GetOr(""))
    {
      var hs, fs, ts, ds := HearingsIn(cases, lo, hi), FilingsIn(cases, lo, hi), TasksIn(tasks, lo, hi), DocsIn(docs, lo, hi);
      assert ev == HearingEvents(hs) + FilingEvents(fs) + TaskEvents(ts) + DocEvents(ds);
      ListedEventLabel(cases, tasks, docs, hs, fs, ts, ds, i);
    }
  }

  /** `EventLabels` for one position of the concatenated event lists. */
  lemma ListedEventLabel(cases: seq<CaseRec>, tasks: seq<TaskRec>, docs: seq<DocRec>,
                         hs: seq<CaseRec>, fs: seq<CaseRec>, ts: seq<TaskRec>, ds: seq<DocRec>, i: nat)
    requires forall c :: c in hs ==> c in cases
    requires forall c :: c in fs ==> c in cases
    requires forall t :: t in ts ==> t in tasks
    requires forall d :: d in ds ==> d in docs
    requires i < |HearingEvents(hs) + FilingEvents(fs) + TaskEvents(ts) + DocEvents(ds)|
    ensures var e := (HearingEvents(hs) + FilingEvents(fs) + TaskEvents(ts) + DocEvents(ds))[i];
            ((e.kind == Hearing || e.kind == Filing) ==> exists c :: c in cases && e.text == CaseLabel(c))
            && ((e.kind == TaskDeadline || e.kind == DocumentDue) ==> e.caseRef.Some?)
            && (e.kind == TaskDeadline ==>
                  exists t :: t in tasks && e.text == t.title && e.caseRef == Some(t.caseRef.GetOr("")))
            && (e.kind == DocumentDue ==>
                  exists d :: d in docs && e.text == d.name && e.caseRef == Some(d.caseRef.GetOr("")))
  {
    var e := (HearingEvents(hs) + FilingEvents(fs) + TaskEvents(ts) + DocEvents(ds))[i];
    if i < |hs| {
      HearingAt(hs, fs, ts, ds, i);
      var c := hs[i];
      assert c in hs;
      assert c in cases && e.text == CaseLabel(c);
    } else if i < |hs| + |fs| {
      FilingAt(hs, fs, ts, ds, i);
      var c := fs[i - |hs|];
      assert c in fs;
      assert c in cases && e.text == CaseLabel(c);
    } else if i < |hs| + |fs| + |ts| {
      TaskAt(hs, fs, ts, ds, i);
      var t := ts[i - |hs| - |fs|];
      assert t in ts;
      assert t in tasks && e == TaskEvent(t);
    } else {
      DocAt(hs, fs, ts, ds, i);
      var d := ds[i - |hs| - |fs| - |ts|];
      assert d in ds;
      assert d in docs && e == DocEvent(d);
    }
  }

  /** The first events are the hearings, in order. */
  lemma HearingAt(hs: seq<CaseRec>, fs: seq<CaseRec>, ts: seq<TaskRec>, ds: seq<DocRec>, i: nat)
    requires i < |hs|
    ensures (HearingEvents(hs) + FilingEvents(fs) + TaskEvents(ts) + DocEvents(ds))[i] == HearingEvent(hs[i])
  {
    Concat4At(HearingEvents(hs), FilingEvents(fs), TaskEvents(ts), DocEvents(ds), i);
  }

  /** The filings follow the hearings, in order. */
  lemma FilingAt(hs: seq<CaseRec>, fs: seq<CaseRec>, ts: seq<TaskRec>, ds: seq<DocRec>, i: nat)
    requires |hs| <= i < |hs| + |fs|
    ensures (HearingEvents(hs) + FilingEvents(fs) + TaskEvents(ts) + DocEvents(ds))[i] == FilingEvent(fs[i - |hs|])
  {
    var fe := FilingEvents(fs);
    Concat4At(HearingEvents(hs), fe, TaskEvents(ts), DocEvents(ds), i);
    assert fe[i - |hs|] == FilingEvent(fs[i - |hs|]);
  }

  /** The task deadlines follow the case events, in order. */
  lemma TaskAt(hs: seq<CaseRec>, fs: seq<CaseRec>, ts: seq<TaskRec>, ds: seq<DocRec>, i: nat)
    requires |hs| + |fs| <= i < |hs| + |fs| + |ts|
    ensures (HearingEvents(hs) + FilingEvents(fs) + TaskEvents(ts) + DocEvents(ds))[i] == TaskEvent(ts[i - |hs| - |fs|])
  {
    var h, f, te, de := HearingEvents(hs), FilingEvents(fs), TaskEvents(ts), DocEvents(ds);
    Concat4At(h, f, te, de, i);
    var k := i - |hs| - |fs|;
    assert te[k] == TaskEvent(ts[k]);
  }

  /** The document due dates come last, in order. */
  lemma DocAt(hs: seq<CaseRec>, fs: seq<CaseRec>, ts: seq<TaskRec>, ds: seq<DocRec>, i: nat)
    requires |hs| + |fs| + |ts| <= i < |hs| + |fs| + |ts| + |ds|
    ensures (HearingEvents(hs) + FilingEvents(fs) + TaskEvents(ts) + DocEvents(ds))[i] == DocEvent(ds[i - |hs| - |fs| - |ts|])
  {
    var h, f, te, de := HearingEvents(hs), FilingEvents(fs), TaskEvents(ts), DocEvents(ds);
    Concat4At(h, f, te, de, i);
    var k := i - |hs| - |fs| - |ts|;
    assert de[k] == DocEvent(ds[k]);
  }

  lemma Concat4At<T>(a: seq<T>, b: seq<T>, c: seq<T>, d: seq<T>, i: nat)
    requires i < |a + b + c + d|
    ensures (a + b + c + d)[i] ==
      if i < |a| then a[i]
      else if i < |a| + |b| then b[i - |a|]
      else if i < |a| + |b| + |c| then c[i - |a| - |b|]
      else d[i - |a| - |b| - |c|]
  {
  }

  /** A task linked to no case gets the empty case ref. */
  lemma UnlinkedTaskRef(t: TaskRec)
    requires t.caseRef.None?
    ensures TaskEvent(t).caseRef == Some("")
  {
  }

  /** A document linked to no case gets the empty case ref. */
  lemma UnlinkedDocRef(d: DocRec)
    requires d.caseRef.None?
    ensures DocEvent(d).caseRef == Some("")
  {
  }
}
