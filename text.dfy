/** The JavaScript string operations the application relies on, over
    `string` (= `seq<char>`): `trim`, ASCII case mapping, `split` on one
    character, `join`, `startsWith`, `includes`, `padStart` and the decimal
    rendering of integers inside template literals. */
module Text {

  /** The characters `String.prototype.trim` removes and `\s` matches:
      ECMAScript WhiteSpace and LineTerminator code points. */
  predicate IsSpace(c: char) {
    c == ' ' || c == '\t' || c == '\n' || c == '\r' || c == '\U{000B}' || c == '\U{000C}'
    || c == '\U{00A0}' || c == '\U{1680}' || ('\U{2000}' <= c <= '\U{200A}')
    || c == '\U{2028}' || c == '\U{2029}' || c == '\U{202F}' || c == '\U{205F}'
    || c == '\U{3000}' || c == '\U{FEFF}'
  }

  predicate NoSpaceAtEnds(s: string) {
    s == [] || (!IsSpace(s[0]) && !IsSpace(s[|s| - 1]))
  }

  function TrimStart(s: string): (r: string)
    ensures |r| <= |s| && r == s[|s| - |r|..]
    ensures r == [] || !IsSpace(r[0])
    ensures forall i :: 0 <= i < |s| - |r| ==> IsSpace(s[i])
  {
    if |s| > 0 && IsSpace(s[0]) then TrimStart(s[1..]) else s
  }

  function TrimEnd(s: string): (r: string)
    ensures |r| <= |s| && r == s[..|r|]
    ensures r == [] || !IsSpace(r[|r| - 1])
    ensures forall i :: |r| <= i < |s| ==> IsSpace(s[i])
  {
    if |s| > 0 && IsSpace(s[|s| - 1]) then TrimEnd(s[..|s| - 1]) else s
  }

  /** `s.trim()`: the longest infix of `s` that neither starts nor ends with
      white space, obtained by dropping white space from both ends. */
  function Trim(s: string): (r: string)
    ensures |r| <= |s|
    ensures NoSpaceAtEnds(r)
    ensures Includes(s, r)
  {
    var t := TrimStart(s);
    TrimInfix(s, t);
    assert InfixAt(s, TrimEnd(t), |s| - |t|);
    TrimEnd(t)
  }

  /** What `TrimEnd` keeps of `t = TrimStart(s)` sits in `s` right after the
      leading white space, and has no white space at its ends. */
  lemma {:induction false} TrimInfix(s: string, t: string)
    requires t == TrimStart(s)
    ensures InfixAt(s, TrimEnd(t), |s| - |t|)
    ensures NoSpaceAtEnds(TrimEnd(t))
  {
    var r := TrimEnd(t);
    PrefixOfSuffix(s, t, r);
    NoSpaceAtEndsOfTrimmed(t, r);
  }

  /** A prefix of a suffix of `s` is an infix of `s`. */
  lemma PrefixOfSuffix(s: string, t: string, r: string)
    requires |t| <= |s| && t == s[|s| - |t|..]
    requires |r| <= |t| && r == t[..|r|]
    ensures InfixAt(s, r, |s| - |t|)
  {
    var k := |s| - |t|;
    assert forall i :: 0 <= i < |r| ==> s[k..k + |r|][i] == s[k + i] == t[i] == r[i];
  }

  lemma NoSpaceAtEndsOfTrimmed(t: string, r: string)
    requires t == [] || !IsSpace(t[0])
    requires |r| <= |t| && r == t[..|r|]
    requires r == [] || !IsSpace(r[|r| - 1])
    ensures NoSpaceAtEnds(r)
  {
    if r != [] {
      assert r[0] == t[0];
    }
  }

  /** Blank in the sense of `!s.trim()`: nothing but white space. */
  predicate IsBlank(s: string) {
    forall i :: 0 <= i < |s| ==> IsSpace(s[i])
  }

  lemma {:induction false} TrimStartBlank(s: string)
    ensures TrimStart(s) == [] <==> IsBlank(s)
  {
    var r := TrimStart(s);
    if r != [] {
      assert r[0] == s[|s| - |r|];
    }
  }

  lemma {:induction false} TrimEndOfNonEmpty(t: string)
    requires t != [] && !IsSpace(t[0])
    ensures TrimEnd(t) != []
  {
    if IsSpace(t[|t| - 1]) {
      assert |t| > 1;
      TrimEndOfNonEmpty(t[..|t| - 1]);
    }
  }

  /** `!s.trim()` holds exactly of the blank strings. */
  lemma TrimEmptyIffBlank(s: string)
    ensures Trim(s) == [] <==> IsBlank(s)
  {
    TrimStartBlank(s);
    var t := TrimStart(s);
    if t != [] { TrimEndOfNonEmpty(t); }
  }

  lemma {:induction false} TrimStartFixed(s: string)
    requires s == [] || !IsSpace(s[0])
    ensures TrimStart(s) == s
  {
  }

  lemma {:induction false} TrimEndFixed(s: string)
    requires s == [] || !IsSpace(s[|s| - 1])
    ensures TrimEnd(s) == s
  {
  }

  /** A string without white space at either end is its own trim. */
  lemma TrimFixed(s: string)
    requires NoSpaceAtEnds(s)
    ensures Trim(s) == s
  {
    TrimStartFixed(s);
    TrimEndFixed(s);
  }

  /** Leading white space does not change the trimmed value. */
  lemma TrimDropsLeadingSpace(c: char, s: string)
    requires IsSpace(c)
    ensures Trim([c] + s) == Trim(s)
  {
    assert ([c] + s)[1..] == s;
  }

  /** Trailing white space does not change the trimmed value. */
  lemma TrimDropsTrailingSpace(s: string, c: char)
    requires IsSpace(c)
    ensures Trim(s + [c]) == Trim(s)
  {
    var u := s + [c];
    if |s| > 0 && IsSpace(s[0]) {
      assert u[1..] == s[1..] + [c];
      TrimDropsTrailingSpace(s[1..], c);
    } else if |s| == 0 {
      assert TrimStart(u) == [];
    } else {
      assert TrimStart(u) == u;
      assert TrimStart(s) == s;
      assert u[..|u| - 1] == s;
    }
  }

  /** Trimming is idempotent. */
  lemma TrimIdempotent(s: string)
    ensures Trim(Trim(s)) == Trim(s)
  {
    TrimFixed(Trim(s));
  }

  // ---------------------------------------------------------------------------
  // Case mapping (ASCII letters only)

  function LowerChar(c: char): char {
    if 'A' <= c <= 'Z' then (c as int + 32) as char else c
  }

  function UpperChar(c: char): char {
    if 'a' <= c <= 'z' then (c as int - 32) as char else c
  }

  /** `s.toLowerCase()` restricted to ASCII letters. */
  function ToLower(s: string): (r: string)
    ensures |r| == |s| && forall i :: 0 <= i < |s| ==> r[i] == LowerChar(s[i])
  {
    if s == [] then [] else [LowerChar(s[0])] + ToLower(s[1..])
  }

  /** `s.toUpperCase()` restricted to ASCII letters. */
  function ToUpper(s: string): (r: string)
    ensures |r| == |s| && forall i :: 0 <= i < |s| ==> r[i] == UpperChar(s[i])
  {
    if s == [] then [] else [UpperChar(s[0])] + ToUpper(s[1..])
  }

  /** Lower-casing forgets whether a letter was upper-case. */
  lemma LowerForgetsCase(s: string)
    ensures ToLower(ToUpper(s)) == ToLower(s)
  {
    var a, b := ToLower(ToUpper(s)), ToLower(s);
    assert |a| == |b|;
    forall i | 0 <= i < |s| ensures a[i] == b[i] {
      assert a[i] == LowerChar(UpperChar(s[i]));
    }
  }

  // ---------------------------------------------------------------------------
  // split / join

  /** `s.split(sep)` for a one-character separator: the maximal runs between
      separators, so `""` gives `[""]` and `","` gives `["", ""]`. */
  function Split(s: string, sep: char): (r: seq<string>)
    ensures |r| >= 1
    ensures forall i :: 0 <= i < |r| ==> sep !in r[i]
  {
    if s == [] then [[]]
    else if s[0] == sep then [[]] + Split(s[1..], sep)
    else
      var rest := Split(s[1..], sep);
      [[s[0]] + rest[0]] + rest[1..]
  }

  /** `parts.join(sep)`. */
  function Join(parts: seq<string>, sep: string): string {
    if |parts| == 0 then []
    else if |parts| == 1 then parts[0]
    else parts[0] + sep + Join(parts[1..], sep)
  }

  lemma {:induction false} SplitNoSep(s: string, sep: char)
    requires sep !in s
    ensures Split(s, sep) == [s]
  {
    if s != [] {
      SplitNoSep(s[1..], sep);
      assert [s[0]] + s[1..] == s;
    }
  }

  lemma {:induction false} SplitAtSep(a: string, sep: char, b: string)
    requires sep !in a
    ensures Split(a + [sep] + b, sep) == [a] + Split(b, sep)
  {
    var s := a + [sep] + b;
    if a == [] {
      assert s[1..] == b;
    } else {
      assert s[0] == a[0] && s[1..] == a[1..] + [sep] + b;
      SplitAtSep(a[1..], sep, b);
      assert [a[0]] + a[1..] == a;
    }
  }

  /** Splitting a joined list gives the list back when no part contains the
      separator. */
  lemma {:induction false} SplitJoin(parts: seq<string>, sep: char)
    requires |parts| >= 1
    requires forall i :: 0 <= i < |parts| ==> sep !in parts[i]
    ensures Split(Join(parts, [sep]), sep) == parts
  {
    if |parts| == 1 {
      SplitNoSep(parts[0], sep);
    } else {
      SplitJoin(parts[1..], sep);
      SplitAtSep(parts[0], sep, Join(parts[1..], [sep]));
      assert parts[0] + [sep] + Join(parts[1..], [sep]) == Join(parts, [sep]);
    }
  }

  /** Splitting at commas a list joined with `", "` gives back the first
      part and, after a leading space, every other one, when no part
      contains a comma. */
  lemma SplitJoinSpaced(fields: seq<string>)
    requires |fields| >= 1
    requires forall i :: 0 <= i < |fields| ==> ',' !in fields[i]
    ensures var parts := Split(Join(fields, ", "), ',');
            |parts| == |fields| && parts[0] == fields[0]
            && forall i :: 1 <= i < |fields| ==> parts[i] == " " + fields[i]
  {
    var spaced := [fields[0]] + seq(|fields| - 1, i requires 0 <= i < |fields| - 1 => " " + fields[i + 1]);
    forall i | 0 <= i < |spaced| ensures ',' !in spaced[i] {
      if i > 0 {
        assert spaced[i] == [' '] + fields[i];
      }
    }
    JoinSpaced(fields);
    SplitJoin(spaced, ',');
  }

  /** Joining with `", "` is joining with `","` after a space is put before
      every part but the first. */
  lemma {:induction false} JoinSpaced(fields: seq<string>)
    requires |fields| >= 1
    ensures Join(fields, ", ") ==
            Join([fields[0]] + seq(|fields| - 1, i requires 0 <= i < |fields| - 1 => " " + fields[i + 1]), ",")
  {
    var spaced := [fields[0]] + seq(|fields| - 1, i requires 0 <= i < |fields| - 1 => " " + fields[i + 1]);
    if |fields| == 1 {
      assert spaced == [fields[0]];
    } else {
      JoinSpaced(fields[1..]);
      var rest := [fields[1]] + seq(|fields| - 2, i requires 0 <= i < |fields| - 2 => " " + fields[i + 2]);
      assert Join(fields, ", ") == fields[0] + ", " + Join(fields[1..], ", ");
      var tail := fields[1..];
      assert [tail[0]] + seq(|tail| - 1, i requires 0 <= i < |tail| - 1 => " " + tail[i + 1]) == rest;
      assert Join(fields[1..], ", ") == Join(rest, ",");
      assert spaced[1..] == [" " + fields[1]] + rest[1..];
      assert Join(spaced, ",") == fields[0] + "," + Join(spaced[1..], ",");
      JoinHeadPrefix(" ", rest, spaced[1..]);
    }
  }

  /** Putting `p` before the first part puts it before the whole join. */
  lemma JoinHeadPrefix(p: string, parts: seq<string>, moved: seq<string>)
    requires |parts| >= 1 && moved == [p + parts[0]] + parts[1..]
    ensures Join(moved, ",") == p + Join(parts, ",")
  {
  }

  /** `s.split(' ')[0]`: the text up to the first space. */
  function FirstWord(s: string): (r: string)
    ensures |r| <= |s| && r == s[..|r|] && ' ' !in r
    ensures |r| == |s| || s[|r|] == ' '
  {
    if s == [] || s[0] == ' ' then [] else [s[0]] + FirstWord(s[1..])
  }

  /** The first word is the head of the split at spaces. */
  lemma {:induction false} FirstWordIsSplitHead(s: string)
    ensures FirstWord(s) == Split(s, ' ')[0]
  {
    if s != [] && s[0] != ' ' {
      FirstWordIsSplitHead(s[1..]);
    }
  }

  // ---------------------------------------------------------------------------
  // prefixes and infixes

  predicate StartsWith(s: string, p: string) {
    |p| <= |s| && s[..|p|] == p
  }

  predicate InfixAt(s: string, sub: string, k: int) {
    0 <= k <= |s| - |sub| && s[k..k + |sub|] == sub
  }

  /** `s.includes(sub)`. */
  predicate Includes(s: string, sub: string) {
    exists k | 0 <= k <= |s| - |sub| :: InfixAt(s, sub, k)
  }

  /** `s.slice(0, n)` for `n >= 0`. */
  function Slice0(s: string, n: nat): (r: string)
    ensures |r| == if |s| < n then |s| else n
    ensures StartsWith(s, r)
  {
    if |s| < n then s else s[..n]
  }

  /** `s.length`: JavaScript counts UTF-16 code units, so a character outside
      the Basic Multilingual Plane (U+10000 and above) counts twice. */
  function Utf16Length(s: string): (n: nat)
    ensures |s| <= n <= 2 * |s|
  {
    if s == [] then 0
    else Utf16Length(s[..|s| - 1]) + (if s[|s| - 1] as int >= 0x1_0000 then 2 else 1)
  }

  /** The UTF-16 length is the character count exactly when every character
      lies in the Basic Multilingual Plane. */
  lemma {:induction false} Utf16LengthIsLength(s: string)
    ensures Utf16Length(s) == |s| <==> forall i :: 0 <= i < |s| ==> s[i] as int < 0x1_0000
  {
    if s != [] {
      var p := s[..|s| - 1];
      Utf16LengthIsLength(p);
      assert forall i :: 0 <= i < |p| ==> p[i] == s[i];
    }
  }

  // ---------------------------------------------------------------------------
  // Decimal rendering

  function DigitChar(d: nat): char
    requires d < 10
  {
    ('0' as int + d) as char
  }

  predicate IsDigit(c: char) {
    '0' <= c <= '9'
  }

  function DigitValue(c: char): nat
    requires IsDigit(c)
  {
    c as int - '0' as int
  }

  /** Decimal value of a string of digits (most significant first). */
  predicate AllDigits(s: string) {
    forall i :: 0 <= i < |s| ==> IsDigit(s[i])
  }

  function DigitsValue(s: string): nat
    requires AllDigits(s)
  {
    if s == [] then 0 else DigitsValue(s[..|s| - 1]) * 10 + DigitValue(s[|s| - 1])
  }

  /** `String(n)` for a natural number: its shortest decimal digits, whose
      value is `n`. */
  function NatToString(n: nat): (r: string)
    ensures |r| >= 1
    ensures AllDigits(r)
    ensures DigitsValue(r) == n
    ensures |r| > 1 ==> r[0] != '0'
  {
    if n < 10 then [DigitChar(n)]
    else
      var p := NatToString(n / 10);
      var r := p + [DigitChar(n % 10)];
      assert r[..|r| - 1] == p;
      r
  }

  /** `String(i)` for an integer. */
  function IntToString(i: int): string {
    if i < 0 then "-" + NatToString(-i) else NatToString(i)
  }

  /** Numbers below 10^k have at most k digits. */
  lemma {:induction false} NatToStringLength(n: nat, k: nat)
    requires n < Pow10(k)
    requires k >= 1
    ensures |NatToString(n)| <= k
  {
    if n >= 10 {
      assert k > 1;
      NatToStringLength(n / 10, k - 1);
    }
  }

  function Pow10(k: nat): nat {
    if k == 0 then 1 else 10 * Pow10(k - 1)
  }

  lemma {:induction false} Pow10Monotone(j: nat, k: nat)
    ensures j <= k ==> Pow10(j) <= Pow10(k)
  {
    if j < k {
      Pow10Monotone(j, k - 1);
    }
  }

  /** A string of k digits is worth less than 10^k. */
  lemma {:induction false} DigitsBound(s: string)
    requires AllDigits(s)
    ensures DigitsValue(s) < Pow10(|s|)
  {
    if s != [] {
      DigitsBound(s[..|s| - 1]);
    }
  }

  /** `s.padStart(n, c)`. */
  function PadStart(s: string, n: nat, c: char): (r: string)
    ensures |r| == if |s| >= n then |s| else n
    ensures r[|r| - |s|..] == s
    ensures forall i :: 0 <= i < |r| - |s| ==> r[i] == c
  {
    if |s| >= n then s else seq(n - |s|, _ => c) + s
  }

  /** Leading zeros do not change a decimal value. */
  lemma {:induction false} LeadingZerosValue(z: nat, s: string)
    requires AllDigits(s)
    ensures AllDigits(seq(z, _ => '0') + s)
    ensures DigitsValue(seq(z, _ => '0') + s) == DigitsValue(s)
    decreases |s|
  {
    var t := seq(z, _ => '0') + s;
    if s == [] {
      assert t == seq(z, _ => '0');
      ZerosValue(z);
    } else {
      assert t[..|t| - 1] == seq(z, _ => '0') + s[..|s| - 1];
      LeadingZerosValue(z, s[..|s| - 1]);
    }
  }

  lemma {:induction false} ZerosValue(z: nat)
    ensures DigitsValue(seq(z, _ => '0')) == 0
  {
    if z > 0 {
      assert seq(z, _ => '0')[..z - 1] == seq(z - 1, _ => '0');
      ZerosValue(z - 1);
    }
  }
}
