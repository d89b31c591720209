/** The display helpers of frontend/src/utils/formatters.js: dates,
    relative times, initials and the colour classes of badges and avatars. */
module Formatters {
  import opened Common
  import opened Text
  import opened Records
  import Seqs

  // ---------------------------------------------------------------------------
  // dates

  const MonthNames: seq<string> := ["Jan", "Feb", "Mar", "Apr", "May", "Jun", "Jul", "Aug", "Sep", "Oct", "Nov", "Dec"]

  /** The local calendar fields `new Date(x)` yields: `getFullYear()`,
      `getMonth()` (0 to 11) and `getDate()`. */
  datatype Day = Day(year: int, month: int, date: int)

  /** The argument of a date formatter: `Absent` for a falsy one (`null`,
      `''`, 0); `Given(None)` for a value `new Date` cannot read. */
  datatype DateArg = Absent | Given(parsed: Option<Day>)

  predicate Readable(d: DateArg) {
    d.Given? && d.parsed.Some? && 0 <= d.parsed.value.month < 12
  }

  const Dash: string := "—"

  /** `formatDate`: `'Mar 5, 2026'`, or a dash. */
  function FormatDate(d: DateArg): (r: string)
    ensures !Readable(d) ==> r == Dash
    ensures Readable(d) ==> var x := d.parsed.value;
              r == MonthNames[x.month] + " " + IntToString(x.date) + ", " + IntToString(x.year)
  {
    if !Readable(d) then Dash
    else var x := d.parsed.value;
      MonthNames[x.month] + " " + IntToString(x.date) + ", " + IntToString(x.year)
  }

  /** `formatDateShort`: `'5 Mar'`, or a dash. */
  function FormatDateShort(d: DateArg): (r: string)
    ensures !Readable(d) ==> r == Dash
    ensures Readable(d) ==> var x := d.parsed.value;
              r == IntToString(x.date) + " " + MonthNames[x.month]
  {
    if !Readable(d) then Dash
    else var x := d.parsed.value;
      IntToString(x.date) + " " + MonthNames[x.month]
  }

  /** Both formats show the dash for the same arguments, and otherwise the
      long form opens with the month the short form ends with. */
  lemma FormatsAgree(d: DateArg)
    ensures FormatDate(d) == Dash <==> FormatDateShort(d) == Dash
    ensures Readable(d) ==> StartsWith(FormatDate(d), MonthNames[d.parsed.value.month])
    ensures Readable(d) ==> var s := FormatDateShort(d); var m := MonthNames[d.parsed.value.month];
                            s[|s| - |m|..] == m
  {
    if Readable(d) {
      var x := d.parsed.value;
      var m := MonthNames[x.month];
      assert |m| == 3 && m[0] != '—';
      var l := FormatDate(d);
      assert l == m + (" " + IntToString(x.date) + ", " + IntToString(x.year));
      assert l[0] == m[0];
      var s := FormatDateShort(d);
      assert s == (IntToString(x.date) + " ") + m;
      assert s[|s| - 1] == m[2] != '—';
    }
  }

  // ---------------------------------------------------------------------------
  // relative time

  /** The argument of `timeAgo`: `Unset` for a falsy one; `At(None)` for a
      value that reads as an invalid date. */
  datatype Moment = Unset | At(ms: Option<int>)

  /** `timeAgo` at the clock reading `now`; `Math.floor` of a quotient by a
      positive divisor is `/` on integers. An invalid date fails every
      comparison and prints `NaN`. */
  function TimeAgo(now: int, m: Moment): string {
    match m
    case Unset => ""
    case At(None) => "NaNmo ago"
    case At(Some(t)) =>
      var seconds := (now - t) / 1000;
      if seconds < 60 then "just now"
      else
        var minutes := seconds / 60;
        if minutes < 60 then IntToString(minutes) + "m ago"
        else
          var hours := minutes / 60;
          if hours < 24 then IntToString(hours) + "h ago"
          else
            var days := hours / 24;
            if days < 30 then IntToString(days) + "d ago"
            else IntToString(days / 30) + "mo ago"
  }

  /** The buckets by elapsed whole seconds `s`: under a minute, an hour, a
      day and thirty days, each shown in its own unit rounded down. */
  lemma TimeAgoBuckets(now: int, t: int)
    ensures var s := (now - t) / 1000;
            var r := TimeAgo(now, At(Some(t)));
            (s < 60 ==> r == "just now")
            && (60 <= s < 3600 ==> r == IntToString(s / 60) + "m ago")
            && (3600 <= s < 86400 ==> r == IntToString(s / 3600) + "h ago")
            && (86400 <= s < 2592000 ==> r == IntToString(s / 86400) + "d ago")
            && (2592000 <= s ==> r == IntToString(s / 2592000) + "mo ago")
  {
    var s := (now - t) / 1000;
    if s >= 60 {
      assert s / 60 / 60 == s / 3600;
      assert s / 3600 / 24 == s / 86400;
      assert s / 86400 / 30 == s / 2592000;
    }
  }

  // ---------------------------------------------------------------------------
  // initials

  /** The first character of every word, skipping the empty words double
      spaces leave (`w[0]` is then `undefined`, which `join` prints as
      nothing). */
  function Heads(words: seq<string>): (r: string)
    ensures |r| <= |words|
  {
    if words == [] then []
    else (if words[0] == [] then [] else [words[0][0]]) + Heads(words[1..])
  }

  predicate NonEmptyWord(w: string) {
    w != []
  }

  /** The heads are the first characters of the non-empty words, in order. */
  lemma {:induction false} HeadsOfNonEmptyWords(words: seq<string>)
    ensures |Heads(words)| == |Seqs.Filter(words, NonEmptyWord)|
    ensures forall i :: 0 <= i < |Heads(words)| ==>
      Seqs.Filter(words, NonEmptyWord)[i] != [] && Heads(words)[i] == Seqs.Filter(words, NonEmptyWord)[i][0]
  {
    if words != [] {
      var w, rest := words[0], words[1..];
      HeadsOfNonEmptyWords(rest);
      var h, hr := Heads(words), Heads(rest);
      var f, fr := Seqs.Filter(words, NonEmptyWord), Seqs.Filter(rest, NonEmptyWord);
      if w != [] {
        assert h == [w[0]] + hr;
        assert f == [w] + fr;
        forall i | 0 <= i < |h| ensures f[i] != [] && h[i] == f[i][0] {
          if i > 0 {
            assert h[i] == hr[i - 1] && f[i] == fr[i - 1];
          }
        }
      } else {
        assert h == hr && f == fr;
      }
    }
  }

  /** `initials`: `'??'` for an empty name, otherwise the upper-cased first
      letters of the words, at most two. */
  function Initials(name: string): (r: string)
    ensures name == "" ==> r == "??"
    ensures |r| <= 2
  {
    if name == "" then "??" else Slice0(ToUpper(Heads(Split(name, ' '))), 2)
  }

  /** Two words give their two first letters, upper-cased. */
  lemma InitialsOfTwoWords(a: string, b: string)
    requires a != [] && b != [] && ' ' !in a && ' ' !in b
    ensures Initials(a + " " + b) == [UpperChar(a[0]), UpperChar(b[0])]
  {
    SplitAtSep(a, ' ', b);
    SplitNoSep(b, ' ');
    assert a + " " + b == a + [' '] + b;
    assert Split(a + " " + b, ' ') == [a, b];
    assert Heads([a, b]) == [a[0], b[0]];
  }

  /** One word gives its first letter, upper-cased. */
  lemma InitialsOfOneWord(a: string)
    requires a != [] && ' ' !in a
    ensures Initials(a) == [UpperChar(a[0])]
  {
    SplitNoSep(a, ' ');
    assert Heads([a]) == [a[0]];
  }

  /** A leading space adds an empty word, which gives no letter. */
  lemma InitialsSkipLeadingSpace(name: string)
    requires name != ""
    ensures Initials(" " + name) == Initials(name)
  {
    SplitAtSep([], ' ', name);
    assert " " + name == [] + [' '] + name;
    var ws := Split(name, ' ');
    assert ([[]] + ws)[1..] == ws;
  }

  /** A double space between words adds an empty word, which gives no
      letter. */
  lemma InitialsSkipDoubleSpace(a: string, b: string)
    requires ' ' !in a
    ensures Initials(a + "  " + b) == Initials(a + " " + b)
  {
    SplitAtSep(a, ' ', [' '] + b);
    SplitAtSep([], ' ', b);
    SplitAtSep(a, ' ', b);
    assert a + "  " + b == a + [' '] + ([' '] + b);
    assert a + " " + b == a + [' '] + b;
    assert [' '] + b == [] + [' '] + b;
    var ws := Split(b, ' ');
    var two := [a] + ([[]] + ws);
    var one := [a] + ws;
    assert two[1..] == [[]] + ws && two[1..][1..] == ws && one[1..] == ws;
    assert Heads(two) == Heads(one);
  }

  /** Only the first two words count. */
  lemma InitialsIgnoreLaterWords(a: string, b: string, rest: string)
    requires a != [] && b != [] && ' ' !in a && ' ' !in b
    ensures Initials(a + " " + b + " " + rest) == Initials(a + " " + b)
  {
    var name := a + " " + b + " " + rest;
    var ws := Split(rest, ' ');
    SplitTwoWords(a, b, rest);
    HeadsOfTwoWords(a, b, ws);
    var u := ToUpper([a[0], b[0]] + Heads(ws));
    assert u[0] == UpperChar(a[0]) && u[1] == UpperChar(b[0]);
    assert name != "" && Initials(name) == u[..2];
    InitialsOfTwoWords(a, b);
  }

  lemma SplitTwoWords(a: string, b: string, rest: string)
    requires ' ' !in a && ' ' !in b
    ensures Split(a + " " + b + " " + rest, ' ') == [a, b] + Split(rest, ' ')
  {
    var t := b + [' '] + rest;
    SplitAtSep(b, ' ', rest);
    SplitAtSep(a, ' ', t);
    assert a + " " + b + " " + rest == a + [' '] + t;
    assert [a] + ([b] + Split(rest, ' ')) == [a, b] + Split(rest, ' ');
  }

  lemma HeadsOfTwoWords(a: string, b: string, ws: seq<string>)
    requires a != [] && b != []
    ensures Heads([a, b] + ws) == [a[0], b[0]] + Heads(ws)
  {
    var words := [a, b] + ws;
    assert words[1..] == [b] + ws;
    assert words[2..] == ws;
  }

  // ---------------------------------------------------------------------------
  // badge colours

  const Grey: string := "bg-gray-100 text-gray-600"

  const UrgencyClasses: map<string, string> := map[
    "Critical" := "bg-red-100 text-red-700",
    "High" := "bg-rose-100 text-rose-700",
    "Standard" := "bg-amber-100 text-amber-700",
    "Low" := "bg-emerald-100 text-emerald-700"]

  const StatusClasses: map<string, string> := map[
    "Active" := "bg-emerald-100 text-emerald-700",
    "Pending" := "bg-amber-100 text-amber-700",
    "On Hold" := "bg-sky-100 text-sky-700",
    "Closed" := "bg-gray-100 text-gray-600",
    "Appeal" := "bg-violet-100 text-violet-700",
    "Draft" := "bg-gray-100 text-gray-600",
    "Submitted" := "bg-sky-100 text-sky-700",
    "Under Review" := "bg-amber-100 text-amber-700",
    "Approved" := "bg-teal-100 text-teal-700",
    "Filed" := "bg-emerald-100 text-emerald-700",
    "Rejected" := "bg-rose-100 text-rose-700",
    "Backlog" := "bg-gray-100 text-gray-600",
    "Todo" := "bg-sky-100 text-sky-700",
    "In Progress" := "bg-indigo-100 text-indigo-700",
    "Review" := "bg-amber-100 text-amber-700",
    "Done" := "bg-emerald-100 text-emerald-700",
    "Dropped" := "bg-gray-100 text-gray-500",
    "Inactive" := "bg-gray-100 text-gray-500"]

  const TierClasses: map<string, string> := map[
    "VIP" := "bg-amber-100 text-amber-700 border-amber-300",
    "Premium" := "bg-indigo-100 text-indigo-700 border-indigo-300",
    "Standard" := "bg-teal-100 text-teal-700 border-teal-300"]

  /** `map[key] || grey`; every listed class is non-empty, so the fallback
      fires exactly for unlisted keys. */
  function Lookup(table: map<string, string>, key: string): (r: string)
    ensures key !in table ==> r == Grey
    ensures key in table && table[key] != "" ==> r == table[key]
  {
    if key in table && table[key] != "" then table[key] else Grey
  }

  function UrgencyColor(u: string): string {
    Lookup(UrgencyClasses, u)
  }

  function StatusColor(s: string): string {
    Lookup(StatusClasses, s)
  }

  function TierColor(t: string): string {
    Lookup(TierClasses, t)
  }

  /** Every urgency and every case status of the schema has a colour of
      its own; the task stages of the schema are listed too. */
  lemma EnumsHaveColours(u: Urgency, s: CaseStatus)
    ensures UrgencyColor(UrgencyName(u)) != Grey
    ensures StatusName(s) in StatusClasses
    ensures forall stage | stage in ["Backlog", "Todo", "In Progress", "Review", "Done", "Dropped"] :: stage in StatusClasses
  {
  }

  // ---------------------------------------------------------------------------
  // avatar colour

  const AvatarClasses: seq<string> := ["bg-indigo-600", "bg-teal-600", "bg-violet-600", "bg-rose-600",
                                       "bg-amber-600", "bg-emerald-600", "bg-sky-600", "bg-pink-600"]

  /** `ToInt32`: the integer taken modulo 2^32 into [-2^31, 2^31). */
  function ToInt32(x: int): (r: int)
    ensures -0x8000_0000 <= r < 0x8000_0000
  {
    (x + 0x8000_0000) % 0x1_0000_0000 - 0x8000_0000
  }

  /** `h << 5` on a JavaScript number. */
  function Shl5(h: int): int {
    ToInt32(ToInt32(h) * 32)
  }

  /** The hash after the characters of `s`, one loop step per character:
      `hash = s.charCodeAt(i) + ((hash << 5) - hash)`. */
  function Hash(s: string): int {
    if s == [] then 0
    else var h := Hash(s[..|s| - 1]);
      s[|s| - 1] as int + (Shl5(h) - h)
  }

  function Abs(x: int): nat {
    if x < 0 then -x else x
  }

  /** `avatarColor`: the loop over the characters, then the class at
      `|hash| % 8`. */
  method AvatarColor(name: string) returns (cls: string)
    ensures cls == AvatarClasses[Abs(Hash(name)) % 8]
  {
    var hash := 0;
    for i := 0 to |name|
      invariant hash == Hash(name[..i])
    {
      assert name[..i + 1][..i] == name[..i];
      hash := name[i] as int + (Shl5(hash) - hash);
    }
    assert name[..|name|] == name;
    cls := AvatarClasses[Abs(hash) % |AvatarClasses|];
  }

  /** The avatar colour is always one of the eight listed classes; the empty
      name gets the first, a one-character name the class of its code. */
  lemma AvatarInRange(name: string)
    ensures AvatarClasses[Abs(Hash(name)) % 8] in AvatarClasses
    ensures Hash("") == 0
    ensures |name| == 1 ==> Hash(name) == name[0] as int
  {
    assert ToInt32(0) == 0;
    assert Shl5(0) == 0;
    if |name| == 1 {
      assert name[..0] == "";
      assert Hash(name) == name[0] as int + (Shl5(Hash("")) - Hash(""));
    }
  }
}
