/** The page header (frontend/src/components/layout/TopBar.jsx): the page
    title derived from the path, and the unread-alerts badge. The title is
    given twice: as the code computes it, and as its title table evidently
    intends. */
module TopBar {
  import opened Common
  import opened Text
  import Seqs

  /** `pageTitles`. */
  const Titles: map<string, string> := map[
    "/" := "Dashboard",
    "/cases" := "Cases",
    "/documents" := "Documents",
    "/tasks" := "Tasks",
    "/clients" := "Clients",
    "/calendar" := "Calendar",
    "/insights" := "Insights",
    "/account" := "My Account",
    "/team" := "Team Members"]

  const Fallback: string := "Advocourt"

  function NonEmpty(): string -> bool {
    (s: string) => s != ""
  }

  /** `pathname.split('/').filter(Boolean)`. */
  function Segments(path: string): (r: seq<string>)
    ensures forall s :: s in r ==> s != "" && '/' !in s
  {
    Seqs.Filter(Split(path, '/'), NonEmpty())
  }

  /** `'/' + segments[0] || '/'` as written: the concatenation is never
      empty, so the `'/'` fallback never applies and a path without
      segments gives `'/undefined'`. */
  function PathBaseAsWritten(path: string): (r: string)
    ensures Segments(path) == [] ==> r == "/undefined"
  {
    var segs := Segments(path);
    "/" + (if segs == [] then "undefined" else segs[0])
  }

  /** `pageTitles[pathBase] || (startsWith('/cases/') ? 'Case Details' : 'Advocourt')`. */
  function PageTitleAsWritten(path: string): string {
    var base := PathBaseAsWritten(path);
    if base in Titles then Titles[base]
    else if StartsWith(path, "/cases/") then "Case Details"
    else Fallback
  }

  /** The segments of `'/' + a` and of `'/' + a + '/' + b`. */
  lemma SegmentsOfPath(a: string, b: string)
    requires a != "" && '/' !in a
    ensures Segments("/" + a) == [a]
    ensures Segments("/" + a + "/" + b) == [a] + Segments(b)
  {
    SegmentsOfOne(a);
    SegmentsOfTwo(a, b);
  }

  lemma SegmentsOfOne(a: string)
    requires a != "" && '/' !in a
    ensures Segments("/" + a) == [a]
  {
    SplitAtSep([], '/', a);
    SplitNoSep(a, '/');
    assert "/" + a == [] + ['/'] + a;
    assert Split("/" + a, '/') == [[], a];
    Seqs.FilterConcat([[]], [a], NonEmpty());
    assert [[], a] == [[]] + [a];
  }

  lemma SegmentsOfTwo(a: string, b: string)
    requires a != "" && '/' !in a
    ensures Segments("/" + a + "/" + b) == [a] + Segments(b)
  {
    SplitAtSep([], '/', a + "/" + b);
    SplitAtSep(a, '/', b);
    assert "/" + a + "/" + b == [] + ['/'] + (a + ['/'] + b);
    assert a + "/" + b == a + ['/'] + b;
    var parts := Split("/" + a + "/" + b, '/');
    assert parts == [[]] + [a] + Split(b, '/');
    Seqs.FilterConcat([[]] + [a], Split(b, '/'), NonEmpty());
    Seqs.FilterConcat([[]], [a], NonEmpty());
  }

  /** A string does not start with `p` when they differ at some position. */
  lemma DiffersAt(s: string, p: string, i: nat)
    requires i < |s| && i < |p| && s[i] != p[i]
    ensures !StartsWith(s, p)
  {
    if |p| <= |s| {
      assert s[..|p|][i] == s[i];
    }
  }

  lemma RootSegments()
    ensures Segments("/") == []
  {
    assert Split("/", '/') == [[], []];
  }

  /** As written, the root path gets the fallback title. */
  lemma RootTitleAsWritten()
    ensures PageTitleAsWritten("/") == Fallback
  {
    RootSegments();
    assert PathBaseAsWritten("/") == "/undefined";
  }

  /** As written, the dashboard's own path `/dashboard` gets the fallback
      title. */
  lemma DashboardTitleAsWritten()
    ensures PageTitleAsWritten("/dashboard") == Fallback
  {
    DashboardSegments();
    assert PathBaseAsWritten("/dashboard") == "/dashboard";
    DashboardNotATitle();
    DiffersAt("/dashboard", "/cases/", 1);
  }

  lemma DashboardSegments()
    ensures Segments("/dashboard") == ["dashboard"]
  {
    var d := "dashboard";
    assert forall i :: 0 <= i < |d| ==> d[i] != '/';
    SegmentsOfPath(d, "");
    assert "/dashboard" == "/" + d;
  }

  /** `/documents` is the only key of the title table as long as `/dashboard`. */
  lemma DashboardNotATitle()
    ensures "/dashboard" !in Titles
  {
    var k := "/dashboard";
    assert Titles.Keys == {"/", "/cases", "/documents", "/tasks", "/clients",
                           "/calendar", "/insights", "/account", "/team"};
    assert |k| == 10;
    assert k != "/documents" by { assert k[2] != "/documents"[2]; }
  }

  /** The segments of a case page's path. */
  lemma CaseSegments(id: string)
    ensures Segments("/cases/" + id) == ["cases"] + Segments(id)
  {
    assert "/cases/" + id == "/" + "cases" + "/" + id;
    SegmentsOfPath("cases", id);
  }

  /** As written, every case page gets `'Cases'`. */
  lemma CaseTitleAsWritten(id: string)
    ensures PageTitleAsWritten("/cases/" + id) == "Cases"
  {
    CaseSegments(id);
    assert PathBaseAsWritten("/cases/" + id) == "/cases";
    assert "/cases" in Titles && Titles["/cases"] == "Cases";
  }

  /** No path at all gets `'Case Details'`. */
  lemma CaseDetailsUnreachable(path: string)
    ensures PageTitleAsWritten(path) != "Case Details"
  {
    if StartsWith(path, "/cases/") {
      var id := path[7..];
      assert path == "/cases/" + id;
      CaseTitleAsWritten(id);
    }
  }

  /** The path base the code evidently means: `'/'` for a path without
      segments. */
  function PathBase(path: string): (r: string)
    ensures Segments(path) == [] ==> r == "/"
    ensures Segments(path) != [] ==> r == "/" + Segments(path)[0]
  {
    var segs := Segments(path);
    if segs == [] then "/" else "/" + segs[0]
  }

  /** The title the code evidently means: a case's own page is `'Case
      Details'`, a listed base its listed title, anything else the
      fallback. */
  function PageTitle(path: string): string {
    if StartsWith(path, "/cases/") && |Segments(path)| >= 2 then "Case Details"
    else
      var base := PathBase(path);
      if base in Titles then Titles[base] else Fallback
  }

  /** With the intended reading the root path is the Dashboard. */
  lemma RootTitle()
    ensures PageTitle("/") == "Dashboard"
  {
    RootSegments();
  }

  /** With the intended reading a case page is `'Case Details'`. */
  lemma CaseTitle(id: string)
    requires id != "" && '/' !in id
    ensures PageTitle("/cases/" + id) == "Case Details"
  {
    CaseSegments(id);
    assert Segments(id) == [id] by {
      SplitNoSep(id, '/');
      Seqs.FilterKeepsAll([id], NonEmpty());
    }
    assert StartsWith("/cases/" + id, "/cases/");
  }

  /** With the intended reading a one-segment page keeps its listed title,
      the case list included, and an unlisted one gets the fallback. */
  lemma PageTitleOfSegment(page: string)
    requires page != "" && '/' !in page
    ensures "/" + page in Titles ==> PageTitle("/" + page) == Titles["/" + page]
    ensures "/" + page !in Titles ==> PageTitle("/" + page) == Fallback
  {
    SegmentsOfPath(page, "");
    assert PathBase("/" + page) == "/" + page;
  }

  /** The unread badge: none without unread alerts, `'99+'` above 99. */
  function BadgeText(unreadCount: int): (r: Option<string>)
    ensures r.None? <==> unreadCount <= 0
    ensures unreadCount > 99 ==> r == Some("99+")
  {
    if unreadCount <= 0 then None
    else if unreadCount > 99 then Some("99+")
    else Some(NatToString(unreadCount))
  }

  /** The badge never needs more than three characters, and up to 99 it
      shows the exact count. */
  lemma BadgeFits(unreadCount: int)
    ensures BadgeText(unreadCount).Some? ==> 1 <= |BadgeText(unreadCount).value| <= 3
    ensures 1 <= unreadCount <= 99 ==> var t := BadgeText(unreadCount).value;
              AllDigits(t) && DigitsValue(t) == unreadCount && |t| <= 2
  {
    if 1 <= unreadCount <= 99 {
      NatToStringLength(unreadCount, 2);
    }
  }
}
