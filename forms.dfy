/** Form-handling pieces several pages share: the email pattern
    `/\S+@\S+\.\S+/`, the comma-separated label field and its parse on save,
    and the `Number(x) || d` coercion of numeric inputs. */
module Forms {
  import opened Common
  import opened Text
  import Seqs

  // ---------------------------------------------------------------------------
  // the email pattern

  /** A match of the pattern with `@` at `a` and `.` at `b`. Every match
      contains one whose outer runs are one character long. */
  predicate EmailAt(s: string, a: int, b: int)
    requires 1 <= a < b < |s| - 1
  {
    s[a] == '@' && s[b] == '.' && a + 1 < b
    && !IsSpace(s[a - 1]) && !IsSpace(s[b + 1])
    && forall k | a < k < b :: !IsSpace(s[k])
  }

  /** `/\S+@\S+\.\S+/.test(s)`: the pattern is not anchored, so any part of
      `s` may match. */
  predicate EmailLike(s: string) {
    exists a, b | 1 <= a < b < |s| - 1 :: EmailAt(s, a, b)
  }

  /** A matching text has an `@`, a later `.` and at least five characters,
      and stays matching whatever surrounds it. */
  lemma EmailLikeShape(s: string, pre: string, post: string)
    requires EmailLike(s)
    ensures '@' in s && '.' in s && |s| >= 5
    ensures EmailLike(pre + s + post)
  {
    var a, b :| 1 <= a < b < |s| - 1 && EmailAt(s, a, b);
    var t := pre + s + post;
    var a', b' := a + |pre|, b + |pre|;
    assert forall k :: 0 <= k < |s| ==> t[k + |pre|] == s[k];
    assert forall k | a' < k < b' :: t[k] == s[k - |pre|];
    assert EmailAt(t, a', b');
  }

  lemma EmailExamples()
    ensures EmailLike("elena@advocourt.io")
    ensures !EmailLike("elena@advocourt")
    ensures !EmailLike("elena @x.io")
    ensures !EmailLike("@advocourt.io")
  {
    assert EmailAt("elena@advocourt.io", 5, 15);
    var s := "elena @x.io";
    forall a, b | 1 <= a < b < |s| - 1 ensures !EmailAt(s, a, b) {
      if s[a] == '@' { assert a == 6; }
    }
    var u := "@advocourt.io";
    forall a, b | 1 <= a < b < |u| - 1 ensures !EmailAt(u, a, b) {
      assert u[a] != '@';
    }
  }

  // ---------------------------------------------------------------------------
  // labels

  function TrimAll(parts: seq<string>): (r: seq<string>)
    ensures |r| == |parts| && forall i :: 0 <= i < |r| ==> r[i] == Trim(parts[i])
  {
    seq(|parts|, i requires 0 <= i < |parts| => Trim(parts[i]))
  }

  /** A character missing from a text is missing from every infix of it. */
  lemma InfixKeepsAbsent(s: string, r: string, c: char)
    requires Includes(s, r) && c !in s
    ensures c !in r
  {
    var k :| 0 <= k <= |s| - |r| && InfixAt(s, r, k);
    assert forall j :: 0 <= j < |r| ==> r[j] == s[k + j];
  }

  /** `s ? s.split(',').map(l => l.trim()).filter(Boolean) : []`. Every label
      is non-empty, trimmed and free of commas. */
  function ParseLabels(s: string): (r: seq<string>)
    ensures forall l :: l in r ==> l != "" && NoSpaceAtEnds(l) && ',' !in l
  {
    if s == "" then []
    else
      var parts := Split(s, ',');
      var trimmed := TrimAll(parts);
      forall i | 0 <= i < |trimmed| ensures NoSpaceAtEnds(trimmed[i]) && ',' !in trimmed[i] {
        InfixKeepsAbsent(parts[i], trimmed[i], ',');
      }
      Seqs.Filter(trimmed, (l: string) => l != "")
  }

  /** `(labels || []).join(', ')`, the field's text when a record is opened
      for editing. */
  function JoinLabels(ls: seq<string>): string {
    Join(ls, ", ")
  }

  predicate CleanLabel(l: string) {
    l != "" && NoSpaceAtEnds(l) && ',' !in l
  }

  /** Opening a record and saving it unchanged keeps its labels when every
      label is non-empty, trimmed and free of commas. */
  lemma LabelsRoundTrip(ls: seq<string>)
    requires forall i :: 0 <= i < |ls| ==> CleanLabel(ls[i])
    ensures ParseLabels(JoinLabels(ls)) == ls
  {
    if ls != [] {
      var s := JoinLabels(ls);
      assert s != "" by {
        if |ls| == 1 { assert s == ls[0]; } else { assert s == ls[0] + ", " + Join(ls[1..], ", "); }
      }
      TrimmedLabels(ls);
      Seqs.FilterKeepsAll(ls, (l: string) => l != "");
    }
  }

  /** Trimming the comma-separated parts of joined clean labels gives the
      labels back. */
  lemma TrimmedLabels(ls: seq<string>)
    requires |ls| >= 1 && forall i :: 0 <= i < |ls| ==> CleanLabel(ls[i])
    ensures TrimAll(Split(JoinLabels(ls), ',')) == ls
  {
    var parts := Split(JoinLabels(ls), ',');
    SplitJoinSpaced(ls);
    var trimmed := TrimAll(parts);
    forall i | 0 <= i < |ls| ensures trimmed[i] == ls[i] {
      if i == 0 {
        TrimFixed(ls[0]);
      } else {
        TrimSpaced(ls[i]);
      }
    }
  }

  /** A space before a trimmed text is dropped by trimming. */
  lemma TrimSpaced(l: string)
    requires NoSpaceAtEnds(l)
    ensures Trim(" " + l) == l
  {
    assert IsSpace(' ');
    assert " " + l == [' '] + l;
    TrimDropsLeadingSpace(' ', l);
    TrimFixed(l);
  }

  /** Saving, opening and saving again gives the labels of the first save. */
  lemma LabelsStable(s: string)
    ensures ParseLabels(JoinLabels(ParseLabels(s))) == ParseLabels(s)
  {
    var ls := ParseLabels(s);
    assert forall i :: 0 <= i < |ls| ==> ls[i] in ls;
    LabelsRoundTrip(ls);
  }

  // ---------------------------------------------------------------------------
  // numeric inputs

  /** `Number(s)` on the texts a numeric input holds: blank is 0 and a run of
      decimal digits (surrounding white space allowed) is its value; any
      other text is `NaN`, written `None`. */
  function JsNumber(s: string): (r: Option<int>)
    ensures IsBlank(s) ==> r == Some(0)
    ensures r.Some? ==> r.value >= 0
  {
    TrimEmptyIffBlank(s);
    var t := Trim(s);
    if t == "" then Some(0)
    else if AllDigits(t) then Some(DigitsValue(t))
    else None
  }

  /** `Number(s) || d`: `NaN` and 0 give the default. */
  function NumberOr(s: string, d: int): (r: int)
    ensures r == d || (JsNumber(s).Some? && r == JsNumber(s).value && r != 0)
    ensures JsNumber(s).None? || JsNumber(s) == Some(0) ==> r == d
  {
    match JsNumber(s)
    case Some(v) => if v != 0 then v else d
    case None => d
  }

  /** The decimal text of a natural number reads back as that number. */
  lemma NumberOfDecimal(n: nat)
    ensures JsNumber(NatToString(n)) == Some(n)
  {
    var s := NatToString(n);
    assert !IsSpace(s[0]) && !IsSpace(s[|s| - 1]);
    TrimFixed(s);
  }

  /** A blank or non-numeric input takes the default; with a non-zero
      default the coerced value is never 0. */
  lemma NumberOrDefault(s: string, d: int)
    ensures IsBlank(s) ==> NumberOr(s, d) == d
    ensures d != 0 ==> NumberOr(s, d) != 0
    ensures AllDigits(s) && s != "" && DigitsValue(s) != 0 ==> NumberOr(s, d) == DigitsValue(s)
  {
    if AllDigits(s) && s != "" {
      assert !IsSpace(s[0]) && !IsSpace(s[|s| - 1]);
      TrimFixed(s);
    }
  }
}
