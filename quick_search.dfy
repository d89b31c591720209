/** The search palette (frontend/src/components/QuickSearch.jsx): the flat
    list of results, keyboard movement through it, the minimum query length
    and the list of recent selections. */
module QuickSearch {
  import Seqs
  import Text

  /** A search hit; a field the record lacks is `''`. */
  datatype Hit = Hit(id: string, title: string, fullName: string, name: string, ref: string)

  /** `item.title || item.fullName || item.name || item.ref || ''`. */
  function Label(h: Hit): (l: string)
    ensures h.title != "" ==> l == h.title
    ensures h.title == "" && h.fullName != "" ==> l == h.fullName
    ensures h.title == "" && h.fullName == "" && h.name != "" ==> l == h.name
    ensures h.title == "" && h.fullName == "" && h.name == "" ==> l == h.ref
  {
    if h.title != "" then h.title
    else if h.fullName != "" then h.fullName
    else if h.name != "" then h.name
    else h.ref
  }

  datatype Recent = Recent(text: string, group: string, id: string)

  const MaxRecent: nat := 8

  function Take<T>(s: seq<T>, n: nat): (r: seq<T>)
    ensures |r| <= n && |r| <= |s| && r == s[..|r|]
    ensures |s| <= n ==> r == s
  {
    if |s| <= n then s else s[..n]
  }

  /** The filter `r => r.id !== id`. */
  function OtherId(id: string): Recent -> bool {
    (x: Recent) => x.id != id
  }

  /** `[entry, ...recent.filter(r => r.id !== entry.id)].slice(0, 8)`. */
  function UpdateRecent(recent: seq<Recent>, entry: Recent): (r: seq<Recent>)
    ensures 1 <= |r| <= MaxRecent && r[0] == entry
    ensures forall i :: 1 <= i < |r| ==> r[i].id != entry.id
    ensures var kept := Seqs.Filter(recent, OtherId(entry.id));
      |r| == (if |kept| < MaxRecent then 1 + |kept| else MaxRecent) &&
      forall i :: 1 <= i < |r| ==> r[i] == kept[i - 1]
  {
    var kept := Seqs.Filter(recent, OtherId(entry.id));
    var r := Take([entry] + kept, MaxRecent);
    assert forall i :: 1 <= i < |r| ==> r[i] == kept[i - 1] && kept[i - 1] in kept;
    r
  }

  predicate IdsDistinct(rs: seq<Recent>) {
    forall i, j :: 0 <= i < j < |rs| ==> rs[i].id != rs[j].id
  }

  /** Where the `i`-th entry of the updated list sat before the update. */
  function Origin(recent: seq<Recent>, entry: Recent, i: nat): (k: nat)
    requires 1 <= i < |UpdateRecent(recent, entry)|
    ensures k < |recent| && recent[k] == UpdateRecent(recent, entry)[i]
  {
    Seqs.KeptCountLength(recent, OtherId(entry.id));
    Seqs.FilterPosAt(recent, OtherId(entry.id), i - 1);
    Seqs.FilterPos(recent, OtherId(entry.id), i - 1)
  }

  /** Older entries that survive keep their relative order. */
  lemma RecentKeepsOrder(recent: seq<Recent>, entry: Recent, i: nat, j: nat)
    requires 1 <= i < j < |UpdateRecent(recent, entry)|
    ensures Origin(recent, entry, i) < Origin(recent, entry, j)
  {
    OriginAt(recent, entry, i);
    OriginAt(recent, entry, j);
    Seqs.FilterPosMonotone(recent, OtherId(entry.id), i - 1, j - 1);
  }

  /** `Origin` is the position of the `(i - 1)`-th kept entry. */
  lemma OriginAt(recent: seq<Recent>, entry: Recent, i: nat)
    requires 1 <= i < |UpdateRecent(recent, entry)|
    ensures i - 1 < Seqs.KeptCount(recent, OtherId(entry.id))
    ensures Origin(recent, entry, i) == Seqs.FilterPos(recent, OtherId(entry.id), i - 1)
  {
    Seqs.KeptCountLength(recent, OtherId(entry.id));
  }

  /** A list with distinct ids keeps distinct ids. */
  lemma RecentKeepsIdsDistinct(recent: seq<Recent>, entry: Recent)
    requires IdsDistinct(recent)
    ensures IdsDistinct(UpdateRecent(recent, entry))
  {
    var r := UpdateRecent(recent, entry);
    forall i, j | 0 <= i < j < |r| ensures r[i].id != r[j].id {
      if i > 0 {
        KeptIdsDistinct(recent, entry, i, j);
      }
    }
  }

  /** Two surviving older entries come from two positions of `recent`. */
  lemma KeptIdsDistinct(recent: seq<Recent>, entry: Recent, i: nat, j: nat)
    requires IdsDistinct(recent)
    requires 1 <= i < j < |UpdateRecent(recent, entry)|
    ensures UpdateRecent(recent, entry)[i].id != UpdateRecent(recent, entry)[j].id
  {
    RecentKeepsOrder(recent, entry, i, j);
    var a, b := Origin(recent, entry, i), Origin(recent, entry, j);
    assert recent[a].id != recent[b].id;
  }

  /** One entry of `allItems`. */
  datatype Flat = Flat(group: string, hit: Hit)

  /** The entries of one group. */
  function GroupItems(group: string, hits: seq<Hit>): (r: seq<Flat>)
    ensures |r| == |hits| && forall k :: 0 <= k < |r| ==> r[k] == Flat(group, hits[k])
  {
    seq(|hits|, k requires 0 <= k < |hits| => Flat(group, hits[k]))
  }

  /** `allItems`: the groups in order, each group's hits in order. */
  function Flatten(results: seq<(string, seq<Hit>)>): seq<Flat> {
    if results == [] then []
    else Flatten(results[..|results| - 1]) + GroupItems(results[|results| - 1].0, results[|results| - 1].1)
  }

  function TotalHits(results: seq<(string, seq<Hit>)>): nat {
    if results == [] then 0 else TotalHits(results[..|results| - 1]) + |results[|results| - 1].1|
  }

  /** One entry per hit. */
  lemma {:induction false} FlattenCount(results: seq<(string, seq<Hit>)>)
    ensures |Flatten(results)| == TotalHits(results)
  {
    if results != [] {
      FlattenCount(results[..|results| - 1]);
    }
  }

  datatype Key = ArrowDown | ArrowUp | Enter | Escape | Other

  /** The palette's state. */
  class Palette {
    var results: seq<(string, seq<Hit>)>
    var recent: seq<Recent>
    var activeIdx: int

    constructor (recent: seq<Recent>)
      ensures this.recent == recent && results == [] && activeIdx == -1
    {
      this.recent := recent;
      results := [];
      activeIdx := -1;
    }

    /** The nested `forEach` building `allItems`. */
    method AllItems() returns (items: seq<Flat>)
      ensures items == Flatten(results)
    {
      items := [];
      for g := 0 to |results|
        invariant items == Flatten(results[..g])
      {
        var (group, hits) := results[g];
        var before := items;
        for k := 0 to |hits|
          invariant items == before + GroupItems(group, hits[..k])
        {
          assert GroupItems(group, hits[..k + 1]) == GroupItems(group, hits[..k]) + [Flat(group, hits[k])];
          items := items + [Flat(group, hits[k])];
        }
        assert hits[..|hits|] == hits;
        assert results[..g + 1][..g] == results[..g];
      }
      assert results[..|results|] == results;
    }

    /** `doSearch`: a query shorter than two UTF-16 code units (`length < 2`,
        so one emoji is long enough) clears the results
        without asking the server; otherwise the server's `answer` is shown. */
    method DoSearch(query: string, answer: seq<(string, seq<Hit>)>) returns (searched: bool)
      modifies this
      ensures searched <==> Text.Utf16Length(query) >= 2
      ensures searched ==> results == answer
      ensures !searched ==> results == []
      ensures recent == old(recent) && activeIdx == old(activeIdx)
    {
      if Text.Utf16Length(query) < 2 {
        results := [];
        return false;
      }
      results := answer;
      searched := true;
    }

    /** `handleSelect`: records the hit first in the recent list and returns
        the route to open. */
    method HandleSelect(group: string, h: Hit) returns (route: string)
      modifies this
      ensures recent == UpdateRecent(old(recent), Recent(Label(h), group, h.id))
      ensures results == old(results) && activeIdx == old(activeIdx)
      ensures route == Route(group, h.id)
    {
      recent := UpdateRecent(recent, Recent(Label(h), group, h.id));
      route := Route(group, h.id);
    }

    /** `handleKeyDown` with `n` items listed: the arrows move within
        `[-1, n - 1]`; Enter selects only an existing item. */
    method HandleKeyDown(key: Key) returns (selected: bool, route: string)
      modifies this
      ensures var n := |Flatten(old(results))|;
              (key == ArrowDown ==> activeIdx == (if old(activeIdx) + 1 < n - 1 then old(activeIdx) + 1 else n - 1))
              && (key == ArrowUp ==> activeIdx == (if old(activeIdx) - 1 > -1 then old(activeIdx) - 1 else -1))
              && (key != ArrowDown && key != ArrowUp ==> activeIdx == old(activeIdx))
              && (selected <==> key == Enter && 0 <= old(activeIdx) < n)
              && (!selected ==> recent == old(recent))
              && (selected ==> var f := Flatten(old(results))[old(activeIdx)];
                                recent == UpdateRecent(old(recent), Recent(Label(f.hit), f.group, f.hit.id))
                                && route == Route(f.group, f.hit.id))
      ensures results == old(results)
      ensures -1 <= old(activeIdx) < |Flatten(old(results))| && (key == ArrowDown || key == ArrowUp) ==>
                -1 <= activeIdx < |Flatten(results)|
    {
      var items := AllItems();
      var n := |items|;
      selected, route := false, "";
      if key == ArrowDown {
        activeIdx := if activeIdx + 1 < n - 1 then activeIdx + 1 else n - 1;
      } else if key == ArrowUp {
        activeIdx := if activeIdx - 1 > -1 then activeIdx - 1 else -1;
      } else if key == Enter && 0 <= activeIdx < n {
        var f := items[activeIdx];
        route := HandleSelect(f.group, f.hit);
        selected := true;
      }
    }
  }

  /** `ROUTE_MAP`. */
  const Routes: map<string, string> := map["cases" := "/cases", "clients" := "/clients",
                                           "documents" := "/documents", "tasks" := "/tasks"]

  /** A case with an id opens its own page; a listed group opens its list
      page, named after the group; an unknown group opens the dashboard. */
  function Route(group: string, id: string): (r: string)
    ensures group == "cases" && id != "" ==> r == "/cases/" + id
    ensures group != "cases" && group !in Routes ==> r == "/dashboard"
    ensures !(group == "cases" && id != "") && group in Routes ==> r == Routes[group] == "/" + group
  {
    if group == "cases" && id != "" then "/cases/" + id
    else if group in Routes then Routes[group]
    else "/dashboard"
  }
}
