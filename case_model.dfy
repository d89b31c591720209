/** The case document (backend/models/Case.js): the schema's enum fields
    with their defaults, and the pre-save hook that assigns a reference
    `CP-<year>-<serial>` to a case saved without one. */
module CaseModel {
  import opened Common
  import opened Text
  import opened Records

  /** `String(count + 1).padStart(4, '0')`. */
  function RefSerial(count: nat): string {
    PadStart(NatToString(count + 1), 4, '0')
  }

  /** `` `CP-${year}-${serial}` ``; `year` is the current year and `count`
      the number of stored cases, both read by the hook. */
  function RefFor(year: int, count: nat): string {
    "CP-" + IntToString(year) + "-" + RefSerial(count)
  }

  /** The serial is at least four digits and reads back as `count + 1`. */
  lemma RefSerialValue(count: nat)
    ensures var r := RefSerial(count);
            |r| >= 4 && AllDigits(r) && DigitsValue(r) == count + 1
  {
    var s := NatToString(count + 1);
    var r := RefSerial(count);
    if |s| < 4 {
      assert r == seq(4 - |s|, _ => '0') + s;
      LeadingZerosValue(4 - |s|, s);
    }
  }

  /** Below 10000 the serial is exactly four digits. */
  lemma RefSerialShort(count: nat)
    requires count + 1 < 10000
    ensures |RefSerial(count)| == 4
  {
    assert Pow10(4) == 10000;
    NatToStringLength(count + 1, 4);
  }

  /** From 10000 on the serial is the plain decimal number, never cut. */
  lemma RefSerialLong(count: nat)
    requires count + 1 >= 10000
    ensures RefSerial(count) == NatToString(count + 1)
  {
    var s := NatToString(count + 1);
    DigitsBound(s);
    Pow10Monotone(|s|, 4);
    assert Pow10(4) == 10000;
  }

  function ParseUrgency(name: string): (r: Option<Urgency>)
    ensures r.Some? ==> UrgencyName(r.value) == name
  {
    if name == "Critical" then Some(Critical)
    else if name == "High" then Some(High)
    else if name == "Standard" then Some(Standard)
    else if name == "Low" then Some(Low)
    else None
  }

  /** The value saved for `status`: the schema default `Pending` when none is
      given, a named status, or a validation failure carrying the rejected
      value. */
  function StatusOnSave(given: Option<string>): (r: Result<CaseStatus, string>)
    ensures given.None? ==> r == Ok(Pending)
    ensures given.Some? && r.Ok? ==> StatusName(r.value) == given.value
    ensures given.Some? && r.Err? ==> r.error == given.value
  {
    if given.None? then Ok(Pending)
    else match ParseStatus(given.value)
      case Some(s) => Ok(s)
      case None => Err(given.value)
  }

  /** The value saved for `urgency`, defaulting to `Standard`. */
  function UrgencyOnSave(given: Option<string>): (r: Result<Urgency, string>)
    ensures given.None? ==> r == Ok(Standard)
    ensures given.Some? && r.Ok? ==> UrgencyName(r.value) == given.value
    ensures given.Some? && r.Err? ==> r.error == given.value
  {
    if given.None? then Ok(Standard)
    else match ParseUrgency(given.value)
      case Some(u) => Ok(u)
      case None => Err(given.value)
  }

  /** Every enum value is accepted as itself, and only enum names are. */
  lemma EnumsAccepted(s: CaseStatus, u: Urgency, given: string)
    ensures StatusOnSave(Some(StatusName(s))) == Ok(s)
    ensures UrgencyOnSave(Some(UrgencyName(u))) == Ok(u)
    ensures StatusOnSave(Some(given)).Ok? <==> exists t :: StatusName(t) == given
    ensures UrgencyOnSave(Some(given)).Ok? <==> exists v :: UrgencyName(v) == given
  {
    StatusAccepted(s, given);
    UrgencyAccepted(u, given);
  }

  lemma StatusAccepted(s: CaseStatus, given: string)
    ensures StatusOnSave(Some(StatusName(s))) == Ok(s)
    ensures StatusOnSave(Some(given)).Ok? <==> exists t :: StatusName(t) == given
  {
    ParseStatusName(s);
    var r := StatusOnSave(Some(given));
    if r.Ok? {
      assert StatusName(r.value) == given;
    }
    if exists t :: StatusName(t) == given {
      var t :| StatusName(t) == given;
      ParseStatusName(t);
    }
  }

  lemma ParseUrgencyName(u: Urgency)
    ensures ParseUrgency(UrgencyName(u)) == Some(u)
  {
  }

  lemma UrgencyAccepted(u: Urgency, given: string)
    ensures UrgencyOnSave(Some(UrgencyName(u))) == Ok(u)
    ensures UrgencyOnSave(Some(given)).Ok? <==> exists v :: UrgencyName(v) == given
  {
    ParseUrgencyName(u);
    var r := UrgencyOnSave(Some(given));
    if r.Ok? {
      assert UrgencyName(r.value) == given;
    }
    if exists v :: UrgencyName(v) == given {
      var v :| UrgencyName(v) == given;
      ParseUrgencyName(v);
    }
  }

  /** A case document as the hook sees it; `ref` is `''` until assigned. */
  class CaseDoc {
    var ref: string
    var status: CaseStatus
    var urgency: Urgency

    constructor (ref: string, status: CaseStatus, urgency: Urgency)
      ensures this.ref == ref && this.status == status && this.urgency == urgency
    {
      this.ref := ref;
      this.status := status;
      this.urgency := urgency;
    }

    /** `pre('save')`: a case without a ref gets `RefFor(year, count)`; an
        existing ref is kept. Nothing else changes. */
    method PreSave(year: int, count: nat)
      modifies this
      ensures old(ref) != "" ==> ref == old(ref)
      ensures old(ref) == "" ==> ref == RefFor(year, count)
      ensures status == old(status) && urgency == old(urgency)
    {
      if ref == "" {
        ref := "CP-" + IntToString(year) + "-" + PadStart(NatToString(count + 1), 4, '0');
      }
    }
  }

  /** Saving twice assigns the reference once. */
  method SaveTwice(doc: CaseDoc, year: int, count: nat, laterYear: int, laterCount: nat)
    modifies doc
    ensures doc.ref == (if old(doc.ref) == "" then RefFor(year, count) else old(doc.ref))
  {
    doc.PreSave(year, count);
    doc.PreSave(laterYear, laterCount);
  }
}
