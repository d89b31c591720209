/** The case list (frontend/src/pages/Cases.jsx): the form's required
    fields, the values it saves, the values an edit starts from, and the
    past/soon marking of hearing dates. */
module CasesPage {
  import opened Common
  import opened Text
  import opened Forms

  /** The form as typed; the dates are `YYYY-MM-DD` texts. */
  datatype CaseForm = CaseForm(
    title: string,
    category: string,
    status: string,
    urgency: string,
    leadAttorney: string,
    hearingDate: string,
    filedOn: string,
    portfolioValue: string,
    labels: string)

  /** The `errs` object of `validateForm`, one slot per checked field. */
  datatype CaseErrors = CaseErrors(
    title: Option<string>,
    category: Option<string>,
    status: Option<string>,
    urgency: Option<string>,
    leadAttorney: Option<string>)
  {
    predicate Empty() {
      title.None? && category.None? && status.None? && urgency.None? && leadAttorney.None?
    }
  }

  const NoCaseErrors: CaseErrors := CaseErrors(None, None, None, None, None)

  /** The error of each field, independently of the others. */
  function FormErrors(f: CaseForm): (e: CaseErrors)
    ensures e.title.Some? <==> IsBlank(f.title)
    ensures e.category.Some? <==> f.category == ""
    ensures e.status.Some? <==> f.status == ""
    ensures e.urgency.Some? <==> f.urgency == ""
    ensures e.leadAttorney.Some? <==> f.leadAttorney == ""
    ensures e.title.Some? ==> e.title.value == "Title is required"
    ensures e.category.Some? ==> e.category.value == "Category is required"
    ensures e.status.Some? ==> e.status.value == "Status is required"
    ensures e.urgency.Some? ==> e.urgency.value == "Urgency is required"
    ensures e.leadAttorney.Some? ==> e.leadAttorney.value == "Lead Attorney is required"
  {
    TrimEmptyIffBlank(f.title);
    CaseErrors(
      if Trim(f.title) == "" then Some("Title is required") else None,
      if f.category == "" then Some("Category is required") else None,
      if f.status == "" then Some("Status is required") else None,
      if f.urgency == "" then Some("Urgency is required") else None,
      if f.leadAttorney == "" then Some("Lead Attorney is required") else None)
  }

  /** `validateForm`: fills the error object field by field and reports
      whether it stayed empty. */
  method ValidateForm(f: CaseForm) returns (errs: CaseErrors, ok: bool)
    ensures errs == FormErrors(f)
    ensures ok <==> errs.Empty()
  {
    errs := NoCaseErrors;
    if Trim(f.title) == "" {
      errs := errs.(title := Some("Title is required"));
    }
    if f.category == "" {
      errs := errs.(category := Some("Category is required"));
    }
    if f.status == "" {
      errs := errs.(status := Some("Status is required"));
    }
    if f.urgency == "" {
      errs := errs.(urgency := Some("Urgency is required"));
    }
    if f.leadAttorney == "" {
      errs := errs.(leadAttorney := Some("Lead Attorney is required"));
    }
    ok := errs.Empty();
  }

  /** The form is accepted iff all five fields are filled in, the title
      with more than white space. */
  lemma FormValidIff(f: CaseForm)
    ensures FormErrors(f).Empty() <==>
              !IsBlank(f.title) && f.category != "" && f.status != "" && f.urgency != "" && f.leadAttorney != ""
  {
  }

  /** `form.portfolioValue ? Number(form.portfolioValue) : 0`; `None` is
      the `NaN` of a text that is not a number. */
  function Portfolio(s: string): (r: Option<int>)
    ensures IsBlank(s) ==> r == Some(0)
    ensures r.Some? ==> r.value >= 0
  {
    if s == "" then Some(0) else JsNumber(s)
  }

  /** The label list saved: the comma-separated entries, trimmed, without
      empty ones. */
  function SavedLabels(s: string): (r: seq<string>)
    ensures s == "" ==> r == []
    ensures forall l :: l in r ==> l != "" && NoSpaceAtEnds(l) && ',' !in l
  {
    ParseLabels(s)
  }

  /** A stored case as the list delivers it; absent texts are `''`, an
      absent value is 0. */
  datatype CaseDoc = CaseDoc(
    title: string,
    category: string,
    status: string,
    urgency: string,
    leadAttorney: string,
    hearingDate: string,
    filedOn: string,
    portfolioValue: nat,
    labels: seq<string>)

  /** `openEdit`: the form an edit starts from. */
  function EditForm(c: CaseDoc): (f: CaseForm)
    ensures f.status == (if c.status == "" then "Pending" else c.status)
    ensures f.urgency == (if c.urgency == "" then "Standard" else c.urgency)
    ensures |f.hearingDate| <= 10 && StartsWith(c.hearingDate, f.hearingDate)
    ensures |f.filedOn| <= 10 && StartsWith(c.filedOn, f.filedOn)
  {
    CaseForm(
      c.title,
      c.category,
      if c.status == "" then "Pending" else c.status,
      if c.urgency == "" then "Standard" else c.urgency,
      c.leadAttorney,
      Slice0(c.hearingDate, 10),
      Slice0(c.filedOn, 10),
      if c.portfolioValue == 0 then "" else NatToString(c.portfolioValue),
      JoinLabels(c.labels))
  }

  /** Saving an edit without touching it keeps the portfolio value and,
      when every label is trimmed, non-empty and comma-free, the labels. */
  lemma EditSaveRoundTrip(c: CaseDoc)
    ensures Portfolio(EditForm(c).portfolioValue) == Some(c.portfolioValue)
    ensures (forall l :: l in c.labels ==> CleanLabel(l)) ==> SavedLabels(EditForm(c).labels) == c.labels
  {
    if c.portfolioValue != 0 {
      NumberOfDecimal(c.portfolioValue);
    }
    if forall l :: l in c.labels ==> CleanLabel(l) {
      LabelsRoundTrip(c.labels);
    }
  }

  const DayMs: int := 86400000

  /** `hearingPast`; `None` is a missing or unreadable date. */
  predicate HearingPast(hearing: Option<int>, now: int) {
    hearing.Some? && hearing.value < now
  }

  /** `hearingSoon`: not past and at most seven days ahead. */
  predicate HearingSoon(hearing: Option<int>, now: int) {
    hearing.Some? && !HearingPast(hearing, now) && hearing.value - now <= 7 * DayMs
  }

  /** A hearing is never both past and soon; soon means from now to seven
      days ahead. */
  lemma HearingMarksExclusive(hearing: Option<int>, now: int)
    ensures !(HearingPast(hearing, now) && HearingSoon(hearing, now))
    ensures HearingSoon(hearing, now) <==> hearing.Some? && now <= hearing.value <= now + 7 * DayMs
  {
  }
}
