/**
 * The detail report (`generateHtmlStatus` and `getHtml`): the last
 * aggregated summaries, filtered, optionally sorted by slug, and rendered
 * as an HTML list.
 */
module Report {
  import opened Seqs
  import opened Text
  import opened Configuration
  import opened Fetch

  /** What `generateHtmlStatus` returns. */
  datatype Report = Report(header: string, content: string, userStyle: string)

  predicate Built(p: Project) { p.build }
  predicate Failing(p: Project) { !p.ok }
  predicate BuiltAndFailing(p: Project) { p.build && !p.ok }

  /** Entries in ascending slug order. */
  predicate SortedBySlug(s: seq<Project>)
  {
    forall i, j :: 0 <= i < j < |s| ==> LexLeq(s[i].project, s[j].project)
  }

  /** Inserts `x` into a list after every entry whose slug is not greater than its own. */
  function Insert(x: Project, s: seq<Project>): (r: seq<Project>)
    ensures multiset(r) == multiset(s) + multiset{x}
  {
    if s == [] then [x]
    else if LexLeq(s[0].project, x.project) then
      assert s == [s[0]] + s[1..];
      [s[0]] + Insert(x, s[1..])
    else [x] + s
  }

  /** Inserting into a sorted list keeps it sorted. */
  lemma {:induction false} InsertSorted(x: Project, s: seq<Project>)
    requires SortedBySlug(s)
    ensures SortedBySlug(Insert(x, s))
  {
    if s != [] {
      var head, tail := s[0], s[1..];
      if LexLeq(head.project, x.project) {
        InsertSorted(x, tail);
        var r := Insert(x, tail);
        forall e | e in r
          ensures LexLeq(head.project, e.project)
        {
          assert e in multiset(r);
          if e != x {
            assert e in tail;
            var i :| 0 <= i < |tail| && tail[i] == e;
            assert s[i + 1] == e;
          }
        }
        assert forall j :: 0 < j < |[head] + r| ==> ([head] + r)[j] == r[j - 1];
      } else {
        LexLeqTotal(head.project, x.project);
        forall j | 0 <= j < |s|
          ensures LexLeq(x.project, s[j].project)
        {
          if j > 0 {
            LexLeqTransitive(x.project, head.project, s[j].project);
          }
        }
      }
    }
  }

  /**
   * `projects.sort((p1, p2) => p1.project.localeCompare(p2.project))`,
   * with code-point order for the comparison: a stable insertion sort.
   */
  function SortBySlug(s: seq<Project>): (r: seq<Project>)
    ensures multiset(r) == multiset(s)
    ensures SortedBySlug(r)
  {
    if s == [] then []
    else
      var init, last := s[..|s| - 1], s[|s| - 1];
      assert s == init + [last];
      var sorted := SortBySlug(init);
      InsertSorted(last, sorted);
      Insert(last, sorted)
  }

  /** Filtering a list that starts with `a` filters `a` on its own and then the rest. */
  lemma FilterCons(a: Project, s: seq<Project>, p: Project -> bool)
    ensures Filter([a] + s, p) == (if p(a) then [a] else []) + Filter(s, p)
  {
    assert [a][..0] == [];
    FilterConcat([a], s, p);
  }

  /** Every entry of a sorted list whose first slug is above `x`'s is above `x`'s. */
  lemma AllAbove(x: Project, s: seq<Project>, e: Project)
    requires SortedBySlug(s) && s != [] && !LexLeq(s[0].project, x.project)
    requires e in s
    ensures !LexLeq(e.project, x.project)
  {
    var i :| 0 <= i < |s| && s[i] == e;
    if LexLeq(e.project, x.project) && i > 0 {
      LexLeqTransitive(s[0].project, e.project, x.project);
    }
  }

  /** Inserting `x` before a list whose first slug is above `x`'s commutes with filtering. */
  lemma FilterInsertFront(x: Project, s: seq<Project>, p: Project -> bool)
    requires SortedBySlug(s) && s != [] && !LexLeq(s[0].project, x.project)
    ensures Filter([x] + s, p) == if p(x) then Insert(x, Filter(s, p)) else Filter(s, p)
  {
    FilterCons(x, s, p);
    var fs := Filter(s, p);
    if fs != [] {
      AllAbove(x, s, fs[0]);
      assert Insert(x, fs) == [x] + fs;
    }
  }

  /** The step of `FilterInsert` where `x` goes behind the first entry. */
  lemma FilterInsertBehind(x: Project, head: Project, tail: seq<Project>, p: Project -> bool)
    requires LexLeq(head.project, x.project)
    requires Filter(Insert(x, tail), p) == if p(x) then Insert(x, Filter(tail, p)) else Filter(tail, p)
    ensures Filter(Insert(x, [head] + tail), p) == if p(x) then Insert(x, Filter([head] + tail, p)) else Filter([head] + tail, p)
  {
    var s := [head] + tail;
    var h := if p(head) then [head] else [];
    var f := Filter(tail, p);
    assert s[0] == head && s[1..] == tail;
    var ins := Insert(x, tail);
    assert Insert(x, s) == [head] + ins;
    FilterCons(head, ins, p);
    FilterCons(head, tail, p);
    var lhs := Filter(Insert(x, s), p);
    assert lhs == h + Filter(ins, p);
    assert Filter(s, p) == h + f;
    if p(x) {
      assert lhs == h + Insert(x, f);
      if p(head) {
        var hf := [head] + f;
        assert hf[0] == head && hf[1..] == f;
        assert Insert(x, hf) == [head] + Insert(x, f);
      } else {
        assert h + f == f;
      }
    }
  }

  /** Filtering a sorted list after inserting is inserting into the filtered list. */
  lemma {:induction false} FilterInsert(x: Project, s: seq<Project>, p: Project -> bool)
    requires SortedBySlug(s)
    ensures Filter(Insert(x, s), p) == if p(x) then Insert(x, Filter(s, p)) else Filter(s, p)
  {
    if s == [] {
      FilterCons(x, [], p);
      assert [x] + [] == [x] == Insert(x, s);
      assert Filter(s, p) == [];
    } else if LexLeq(s[0].project, x.project) {
      var head, tail := s[0], s[1..];
      assert SortedBySlug(tail) by {
        forall i, j | 0 <= i < j < |tail|
          ensures LexLeq(tail[i].project, tail[j].project)
        {
          assert tail[i] == s[i + 1] && tail[j] == s[j + 1];
        }
      }
      FilterInsert(x, tail, p);
      FilterInsertBehind(x, head, tail, p);
      assert s == [head] + tail;
    } else {
      FilterInsertFront(x, s, p);
      assert Insert(x, s) == [x] + s;
    }
  }

  /**
   * Filtering after sorting equals sorting after filtering: the order in
   * which the report applies `sortByName` and `showSuccess` does not matter.
   */
  lemma {:induction false} FilterSortCommute(s: seq<Project>, p: Project -> bool)
    ensures Filter(SortBySlug(s), p) == SortBySlug(Filter(s, p))
  {
    if s != [] {
      var init, last := s[..|s| - 1], s[|s| - 1];
      var sortedInit := SortBySlug(init);
      var fInit := Filter(init, p);
      assert SortBySlug(s) == Insert(last, sortedInit);
      FilterSortCommute(init, p);
      FilterInsert(last, sortedInit, p);
      var lhs := Filter(SortBySlug(s), p);
      assert lhs == if p(last) then Insert(last, SortBySlug(fInit)) else SortBySlug(fInit);
      var f := Filter(s, p);
      assert f == fInit + (if p(last) then [last] else []);
      if p(last) {
        assert f[..|f| - 1] == fInit && f[|f| - 1] == last;
        assert SortBySlug(f) == Insert(last, SortBySlug(fInit));
      } else {
        assert f == fInit;
      }
    }
  }

  /**
   * The report's entries: built entries, sorted by slug when `sortByName`,
   * and only the failing ones unless `showSuccess`.
   */
  function Entries(report: ReportSettings, last: seq<Project>): seq<Project>
  {
    var built := Filter(last, Built);
    var ordered := if report.sortByName then SortBySlug(built) else built;
    if report.showSuccess then ordered else Filter(ordered, Failing)
  }

  /** The entries a report with these settings shows, in aggregation order. */
  function Visible(report: ReportSettings, last: seq<Project>): seq<Project>
  {
    if report.showSuccess then Filter(last, Built) else Filter(last, BuiltAndFailing)
  }

  /**
   * The report shows exactly the visible entries: sorted by slug with
   * `sortByName`, and in aggregation order without it.
   */
  lemma EntriesAreVisible(report: ReportSettings, last: seq<Project>)
    ensures Entries(report, last) == if report.sortByName then SortBySlug(Visible(report, last)) else Visible(report, last)
  {
    if !report.showSuccess {
      FilterFilter(last, Built, Failing, BuiltAndFailing);
      if report.sortByName {
        FilterSortCommute(Filter(last, Built), Failing);
      }
    }
  }

  /**
   * An entry is in the report iff it is in the last result, has been built,
   * and either `showSuccess` is set or its last build failed.
   */
  lemma ReportMembership(report: ReportSettings, last: seq<Project>, p: Project)
    ensures p in Entries(report, last) <==> p in last && p.build && (report.showSuccess || !p.ok)
  {
    EntriesAreVisible(report, last);
    var v := Visible(report, last);
    assert p in SortBySlug(v) <==> p in v by {
      assert p in SortBySlug(v) <==> p in multiset(SortBySlug(v));
    }
    if p in last && p.build && (report.showSuccess || !p.ok) {
      if report.showSuccess {
        FilterComplete(last, Built, p);
      } else {
        FilterComplete(last, BuiltAndFailing, p);
      }
    }
  }

  /** With `sortByName` the entries are in slug order. */
  lemma EntriesSorted(report: ReportSettings, last: seq<Project>)
    requires report.sortByName
    ensures SortedBySlug(Entries(report, last))
  {
    EntriesAreVisible(report, last);
  }

  function StateName(ok: bool): string
  {
    if ok then "green" else "red"
  }

  /** The fixed text before the state name in a rendered item. */
  function MarkerPrefix(dots: bool): string
  {
    if dots then "<li><div class=\"circle circle-" else "<li class=\"project-"
  }

  /** The link to a project's page, with the slug as its text. */
  function Anchor(projectUrl: string, slug: string): string
  {
    "<a href=\"" + projectUrl + "/" + slug + "\">" + slug + "</a>"
  }

  /** `getHtml`: one list item, with a coloured dot or a coloured item class. */
  function GetHtml(projectUrl: string, dots: bool, p: Project): string
  {
    var state := StateName(p.ok);
    if dots then MarkerPrefix(dots) + state + "\"></div>" + Anchor(projectUrl, p.project) + "</li>"
    else MarkerPrefix(dots) + state + "\">" + Anchor(projectUrl, p.project) + "</li>"
  }

  /**
   * A rendered item opens with the fixed prefix and the state name, which
   * is "red" exactly for a failing entry, and closes with the link to
   * `projectUrl/slug`.
   */
  lemma ItemMarksState(projectUrl: string, dots: bool, p: Project)
    ensures var h := GetHtml(projectUrl, dots, p);
      var o := |MarkerPrefix(dots)|;
      var tail := Anchor(projectUrl, p.project) + "</li>";
      && |h| >= o + 3 + |tail|
      && h[..o] == MarkerPrefix(dots)
      && (h[o..o + 3] == "red" <==> !p.ok)
      && h[|h| - |tail|..] == tail
  {
    var h := GetHtml(projectUrl, dots, p);
    var o := |MarkerPrefix(dots)|;
    var state := StateName(p.ok);
    var tail := Anchor(projectUrl, p.project) + "</li>";
    var mid := if dots then "\"></div>" else "\">";
    assert h == MarkerPrefix(dots) + state + mid + tail;
    assert h[o..o + 3] == state[..3];
    assert p.ok ==> state[..3] != "red" by {
      assert p.ok ==> state[0] == 'g';
    }
  }

  /** The rendered items, entry by entry. */
  function Items(projectUrl: string, dots: bool, entries: seq<Project>): (items: seq<string>)
    ensures |items| == |entries|
    ensures forall i :: 0 <= i < |entries| ==> items[i] == GetHtml(projectUrl, dots, entries[i])
  {
    seq(|entries|, i requires 0 <= i < |entries| => GetHtml(projectUrl, dots, entries[i]))
  }

  function Header(showSuccess: bool, projectUrl: string): string
  {
    if showSuccess then "Builds on " + projectUrl else "Failed builds on " + projectUrl
  }

  /** `<ul>${list}</ul>` */
  function Wrap(list: string): string
  {
    "<ul>" + list + "</ul>"
  }

  /** The report's markup: the entries' items joined and wrapped in a list. */
  function Content(projectUrl: string, dots: bool, entries: seq<Project>): string
  {
    Wrap(Flatten(Items(projectUrl, dots, entries)))
  }

  /** `generateHtmlStatus` over the last aggregated result. */
  function RenderReport(config: Config, last: seq<Project>): (r: Report)
    ensures r.content == Content(config.projectUrl, config.report.dots, Entries(config.report, last))
    ensures r.header == Header(config.report.showSuccess, config.projectUrl)
    ensures r.userStyle == config.report.userStyle
  {
    var entries := Entries(config.report, last);
    Report(Header(config.report.showSuccess, config.projectUrl), Content(config.projectUrl, config.report.dots, entries), config.report.userStyle)
  }

  /** The list sits between `<ul>` and `</ul>`, character for character. */
  lemma WrapLayout(list: string)
    ensures var c := Wrap(list);
      && |c| == 4 + |list| + 5
      && c[..4] == "<ul>"
      && c[|c| - 5..] == "</ul>"
      && forall k :: 0 <= k < |list| ==> c[4 + k] == list[k]
  {
  }

  /**
   * The content is `<ul>`, the items one after another in entry order, and
   * `</ul>`; no entries give `<ul></ul>`.
   */
  lemma ContentLayout(projectUrl: string, dots: bool, entries: seq<Project>)
    ensures var items := Items(projectUrl, dots, entries);
      var c := Content(projectUrl, dots, entries);
      && |c| == 4 + SumLengths(items) + 5
      && c[..4] == "<ul>"
      && c[|c| - 5..] == "</ul>"
      && (entries == [] ==> c == "<ul></ul>")
  {
    var items := Items(projectUrl, dots, entries);
    WrapLayout(Flatten(items));
    FlattenLength(items);
    if entries == [] {
      assert items == [];
    }
  }

  /** Character j of item i sits right after `<ul>` and the items before it. */
  lemma ItemInContent(projectUrl: string, dots: bool, entries: seq<Project>, i: nat, j: nat)
    requires i < |entries| && j < |GetHtml(projectUrl, dots, entries[i])|
    ensures var items := Items(projectUrl, dots, entries);
      var c := Content(projectUrl, dots, entries);
      && 4 + SumLengths(items[..i]) + j < |c|
      && c[4 + SumLengths(items[..i]) + j] == GetHtml(projectUrl, dots, entries[i])[j]
  {
    var items := Items(projectUrl, dots, entries);
    var list := Flatten(items);
    var k := SumLengths(items[..i]) + j;
    FlattenAt(items, i, j);
    WrapLayout(list);
    assert Content(projectUrl, dots, entries)[4 + k] == list[k];
  }
}
