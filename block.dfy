/**
 * The status block itself (`class Travis`): its configuration, the output
 * object shown by i3status, the last aggregated result, and the refresh.
 */
module Block {
  import opened Results
  import opened Seqs
  import opened Configuration
  import opened Fetch
  import opened StatusOutput
  import opened Report

  class Travis {
    /** The normalised configuration, fixed at construction. */
    const config: Config
    /** The output object (`full_text`, `short_text`, `color`, and whatever the host put in it). */
    var output: map<string, string>
    /** The summaries of the last successful refresh; `None` before the first one. */
    var lastResult: Option<seq<Project>>
    /** The output carried by each `updated` event emitted so far, oldest first. */
    ghost var events: seq<map<string, string>>

    /** The last event always carries the current output. */
    ghost predicate Valid()
      reads this
    {
      |events| > 0 ==> events[|events| - 1] == output
    }

    /** Stores an already validated configuration and a copy of the host's output object. */
    constructor (config: Config, output: map<string, string>)
      ensures this.config == config && this.output == output
      ensures lastResult == None && events == []
      ensures Valid()
    {
      this.config := config;
      this.output := output;
      lastResult := None;
      events := [];
    }

    /** `new Travis(options, output)`: throws what `Configure` rejects, otherwise builds the block. */
    static method Create(options: Options, output: map<string, string>) returns (r: Result<Travis>)
      ensures r.Err? <==> Configure(options).Err?
      ensures r.Err? ==> r.error == Configure(options).error
      ensures r.Ok? ==> fresh(r.value) && r.value.Valid()
      ensures r.Ok? ==> r.value.config == Configure(options).value && r.value.output == output
      ensures r.Ok? ==> r.value.lastResult == None && r.value.events == []
    {
      var config := Configure(options);
      if config.Err? {
        return Err(config.error);
      }
      var block := new Travis(config.value, output);
      return Ok(block);
    }

    /** `setOutput`: show the status for the broken projects and emit `updated` once. */
    method SetOutput(broken: seq<Project>)
      requires Valid()
      modifies this
      ensures output == AfterSetOutput(config, old(output), |broken|)
      ensures lastResult == old(lastResult)
      ensures events == old(events) + [output]
      ensures Valid()
    {
      output := AfterSetOutput(config, output, |broken|);
      events := events + [output];
    }

    /** `handleError`: show the error message and emit `updated` once. */
    method HandleError(error: string)
      requires Valid()
      modifies this
      ensures output == AfterHandleError(old(output), error)
      ensures lastResult == old(lastResult)
      ensures events == old(events) + [output]
      ensures Valid()
    {
      output := AfterHandleError(output, error);
      events := events + [output];
    }

    /**
     * `update`: poll every account through `transport`; when all polls
     * succeed, store their concatenation and show its failing entries,
     * otherwise show the first rejection (by `completion` order) and keep
     * the previous result. Exactly one event is emitted either way.
     */
    method Update(transport: Request -> Response, completion: seq<nat>)
      requires Valid()
      modifies this
      ensures Valid()
      ensures events == old(events) + [output]
      ensures var outcome := Join(ReadAll(config, transport), completion);
        && (outcome.Ok? ==>
              && lastResult == Some(Flatten(outcome.value))
              && output == AfterSetOutput(config, old(output), |Filter(Flatten(outcome.value), Failing)|))
        && (outcome.Err? ==>
              && lastResult == old(lastResult)
              && output == AfterHandleError(old(output), outcome.error))
    {
      var outcome := Join(ReadAll(config, transport), completion);
      match outcome
      case Ok(results) =>
        var allProjects := Flatten(results);
        lastResult := Some(allProjects);
        var brokenProjects := Filter(allProjects, Failing);
        SetOutput(brokenProjects);
      case Err(error) =>
        HandleError(error);
    }

    /** `generateHtmlStatus`: the report over the last result; it fails before the first success. */
    function GenerateHtmlStatus(): (r: Option<Report>)
      reads this
      ensures r.None? <==> lastResult.None?
      ensures r.Some? ==> r.value == RenderReport(config, lastResult.value)
    {
      match lastResult
      case None => None
      case Some(last) => Some(RenderReport(config, last))
    }
  }

  /** The success status is shown exactly when no project's last build failed. */
  lemma NoBrokenIffAllOk(all: seq<Project>)
    ensures |Filter(all, Failing)| == 0 <==> forall p :: p in all ==> p.ok
  {
    if exists p :: p in all && !p.ok {
      var p :| p in all && !p.ok;
      FilterComplete(all, Failing, p);
    }
  }

  /** Three repositories, two of them failed or errored: the status reads " (2)". */
  lemma MultipleFailuresExample()
    ensures var repos := [
        Repo("fehmer/i3-status-travis", Some("failed"), Absent),
        Repo("fehmer/i3-status-gitlab", Some("errored"), Absent),
        Repo("fehmer/i3-status", Some(""), Absent)];
      var r := Interpret(None, Reply(200, Body(Some(repos))));
      && r.Ok?
      && |Filter(r.value, Failing)| == 2
      && StatusText(DefaultSuccess, DefaultFailure, |Filter(r.value, Failing)|) == " (2)"
  {
    var repos := [
      Repo("fehmer/i3-status-travis", Some("failed"), Absent),
      Repo("fehmer/i3-status-gitlab", Some("errored"), Absent),
      Repo("fehmer/i3-status", Some(""), Absent)];
    var ps := Interpret(None, Reply(200, Body(Some(repos)))).value;
    assert ps == Summaries(repos);
    assert !ps[0].ok && !ps[1].ok;
    assert ps[2].ok by {
      assert repos[2].lastBuildState == Some("");
      assert "" != "errored" && "" != "failed";
    }
    TwoOfThreeFailing(ps);
    assert Text.NatToString(2) == "2";
  }

  /** Of three entries, the first two failing and the third passing, the filter keeps two. */
  lemma TwoOfThreeFailing(ps: seq<Project>)
    requires |ps| == 3 && !ps[0].ok && !ps[1].ok && ps[2].ok
    ensures |Filter(ps, Failing)| == 2
  {
    assert ps[..1][..0] == [];
    assert Filter(ps[..1], Failing) == [ps[0]];
    assert ps[..2][..1] == ps[..1];
    assert Filter(ps[..2], Failing) == [ps[0], ps[1]];
    assert ps[..3] == ps;
  }

  /**
   * With the default report settings, a passed, a failed and another
   * failed project, all built, leave the two failed ones in order.
   */
  lemma ReportEntriesExample(report: ReportSettings)
    requires !report.showSuccess && !report.sortByName
    ensures var last := [
        Project("fehmer/a-project", true, true),
        Project("fehmer/c-project", false, true),
        Project("fehmer/b-project", false, true)];
      Entries(report, last) == [last[1], last[2]]
  {
    var a := Project("fehmer/a-project", true, true);
    var c := Project("fehmer/c-project", false, true);
    var b := Project("fehmer/b-project", false, true);
    var last := [a, c, b];
    EntriesAreVisible(report, last);
    assert last[..1][..0] == [];
    assert Filter(last[..1], BuiltAndFailing) == [];
    assert last[..2][..1] == last[..1];
    assert Filter(last[..2], BuiltAndFailing) == [c];
    assert last[..3] == last;
  }
}
