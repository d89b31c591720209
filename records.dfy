/** The stored records the routes read: cases, tasks and documents, reduced to
    the fields the modelled code looks at. Dates are milliseconds since the
    epoch; a date the record does not carry is `None`. */
module Records {
  import opened Common

  /** The case `status` enum, backend/models/Case.js:22. */
  datatype CaseStatus = Active | Pending | OnHold | Closed | Appeal

  function StatusName(s: CaseStatus): (r: string)
    ensures |r| > 0
  {
    match s
    case Active => "Active"
    case Pending => "Pending"
    case OnHold => "On Hold"
    case Closed => "Closed"
    case Appeal => "Appeal"
  }

  /** Mongoose's enum check on save: a status string is accepted only when it
      names one of the five statuses. */
  function ParseStatus(name: string): (r: Option<CaseStatus>)
    ensures r.Some? ==> StatusName(r.value) == name
  {
    if name == "Active" then Some(Active)
    else if name == "Pending" then Some(Pending)
    else if name == "On Hold" then Some(OnHold)
    else if name == "Closed" then Some(Closed)
    else if name == "Appeal" then Some(Appeal)
    else None
  }

  lemma ParseStatusName(s: CaseStatus)
    ensures ParseStatus(StatusName(s)) == Some(s)
  {
  }

  /** The `urgency` enum shared by cases and tasks. */
  datatype Urgency = Critical | High | Standard | Low

  function UrgencyName(u: Urgency): string {
    match u
    case Critical => "Critical"
    case High => "High"
    case Standard => "Standard"
    case Low => "Low"
  }

  datatype CaseRec = CaseRec(
    ref: string,
    title: string,
    category: string,
    status: CaseStatus,
    urgency: Urgency,
    leadAttorney: string,
    court: string,
    hearingDate: Option<int>,
    filedOn: Option<int>,
    updatedAt: Option<int>,
    portfolioValue: int,
    labels: seq<string>)

  /** A task; `caseRef` is the `ref` of the populated case, `None` when the
      task is linked to no case. */
  datatype TaskRec = TaskRec(
    title: string,
    caseRef: Option<string>,
    owner: string,
    createdBy: string,
    urgency: Urgency,
    stage: string,
    deadline: Option<int>,
    resolvedAt: Option<int>,
    plannedHours: int,
    loggedHours: int)

  datatype DocRec = DocRec(
    name: string,
    caseRef: Option<string>,
    docType: string,
    reviewStatus: string,
    preparedBy: string,
    dueBy: Option<int>)
}
