/** The document list (frontend/src/pages/Documents.jsx): the form's
    required fields, the values it saves, the values an edit starts from,
    and the overdue marker. */
module DocumentsPage {
  import opened Common
  import opened Text
  import opened Records
  import opened Forms

  datatype DocForm = DocForm(
    name: string,
    docType: string,
    reviewStatus: string,
    dueBy: string,
    revision: string,
    labels: string)

  datatype DocErrors = DocErrors(name: Option<string>, docType: Option<string>, reviewStatus: Option<string>) {
    predicate Empty() {
      name.None? && docType.None? && reviewStatus.None?
    }
  }

  /** The error of each field, independently of the others. */
  function FormErrors(f: DocForm): (e: DocErrors)
    ensures e.name.Some? <==> IsBlank(f.name)
    ensures e.docType.Some? <==> f.docType == ""
    ensures e.reviewStatus.Some? <==> f.reviewStatus == ""
    ensures e.name.Some? ==> e.name.value == "Name is required"
    ensures e.docType.Some? ==> e.docType.value == "Document type is required"
    ensures e.reviewStatus.Some? ==> e.reviewStatus.value == "Status is required"
  {
    TrimEmptyIffBlank(f.name);
    DocErrors(
      if Trim(f.name) == "" then Some("Name is required") else None,
      if f.docType == "" then Some("Document type is required") else None,
      if f.reviewStatus == "" then Some("Status is required") else None)
  }

  /** `validateForm`: fills the error object field by field and reports
      whether it stayed empty. */
  method ValidateForm(f: DocForm) returns (e: DocErrors, ok: bool)
    ensures e == FormErrors(f)
    ensures ok <==> e.Empty()
  {
    e := DocErrors(None, None, None);
    if Trim(f.name) == "" {
      e := e.(name := Some("Name is required"));
    }
    if f.docType == "" {
      e := e.(docType := Some("Document type is required"));
    }
    if f.reviewStatus == "" {
      e := e.(reviewStatus := Some("Status is required"));
    }
    ok := e.Empty();
  }

  /** The form is accepted iff the name has more than white space and a
      type and a status are chosen. */
  lemma FormValidIff(f: DocForm)
    ensures FormErrors(f).Empty() <==> !IsBlank(f.name) && f.docType != "" && f.reviewStatus != ""
  {
  }

  /** `Number(form.revision) || 1`. */
  function Revision(s: string): (r: int)
    ensures r >= 1
    ensures IsBlank(s) || JsNumber(s).None? || JsNumber(s) == Some(0) ==> r == 1
  {
    NumberOr(s, 1)
  }

  /** A stored document as the list delivers it; `revision` 0 stands for an
      absent one. */
  datatype DocRecord = DocRecord(
    name: string,
    docType: string,
    reviewStatus: string,
    dueBy: string,
    revision: nat,
    labels: seq<string>)

  /** `openEdit`: the form an edit starts from. */
  function EditForm(d: DocRecord): (f: DocForm)
    ensures |f.dueBy| <= 10 && StartsWith(d.dueBy, f.dueBy)
    ensures f.revision == NatToString(if d.revision == 0 then 1 else d.revision)
  {
    DocForm(d.name, d.docType, d.reviewStatus, Slice0(d.dueBy, 10),
            NatToString(if d.revision == 0 then 1 else d.revision), JoinLabels(d.labels))
  }

  /** Saving an edit without touching it keeps a set revision, turns an
      absent one into 1, and keeps clean labels. */
  lemma EditSaveRoundTrip(d: DocRecord)
    ensures Revision(EditForm(d).revision) == if d.revision == 0 then 1 else d.revision
    ensures (forall l :: l in d.labels ==> CleanLabel(l)) ==> ParseLabels(EditForm(d).labels) == d.labels
  {
    NumberOfDecimal(if d.revision == 0 then 1 else d.revision);
    if forall l :: l in d.labels ==> CleanLabel(l) {
      LabelsRoundTrip(d.labels);
    }
  }

  /** The red due date of a row: due before `now` and neither Filed nor
      Approved. */
  predicate Overdue(d: DocRec, now: int) {
    d.dueBy.Some? && d.dueBy.value < now && d.reviewStatus !in ["Filed", "Approved"]
  }

  /** The dashboard's count of overdue documents (backend/routes/stats.js). */
  predicate CountedOverdue(d: DocRec, now: int) {
    d.dueBy.Some? && d.dueBy.value < now && d.reviewStatus != "Filed" && d.reviewStatus != "Approved"
  }

  /** The page marks exactly the documents the dashboard counts. */
  lemma OverdueMatchesCount(d: DocRec, now: int)
    ensures Overdue(d, now) <==> CountedOverdue(d, now)
    ensures d.reviewStatus == "Filed" || d.reviewStatus == "Approved" ==> !Overdue(d, now)
  {
  }
}
