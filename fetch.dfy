/**
 * One poll of the CI service for one account (`readForUser`) and the
 * fail-fast join of all accounts' polls (`Promise.all`).
 */
module Fetch {
  import opened Results
  import opened Seqs
  import Text
  import opened Configuration

  const AcceptHeader := "application/vnd.travis-ci.2+json"
  const UserAgent := "i3-status-travis/1.0.0"

  /** The outbound request: its URL and its headers, in insertion order. */
  datatype Request = Request(url: string, headers: seq<(string, string)>)

  /** A repository's `last_build_id`: left out of the record, `null`, or a number. */
  datatype BuildId = Absent | Null | Id(n: int)

  /** One record of the response's `repos` collection. */
  datatype Repo = Repo(slug: string, lastBuildState: Option<string>, lastBuildId: BuildId)

  /** The parsed response body; `repos` is `None` when missing or falsy. */
  datatype Body = Body(repos: Option<seq<Repo>>)

  /** What the transport answers: an error, or a status code and a parsed body. */
  datatype Response = TransportError(error: string) | Reply(statusCode: nat, body: Body)

  /** A repository's summary: its slug, whether its last build passed, whether it ever built. */
  datatype Project = Project(project: string, ok: bool, build: bool)

  /** The request headers: fixed client and accept headers, then the token if one is set. */
  function Headers(token: Option<string>): (h: seq<(string, string)>)
    ensures |h| == if token.Some? && token.value != "" then 3 else 2
    ensures h[0] == ("User-Agent", UserAgent) && h[1] == ("Accept", AcceptHeader)
    ensures (exists i :: 0 <= i < |h| && h[i].0 == "Authorization") <==> token.Some? && token.value != ""
    ensures forall i :: 0 <= i < |h| && h[i].0 == "Authorization" ==> h[i].1 == "token " + token.value
  {
    var fixed := [("User-Agent", UserAgent), ("Accept", AcceptHeader)];
    if token.Some? && token.value != "" then
      var h := fixed + [("Authorization", "token " + token.value)];
      assert h[2].0 == "Authorization";
      h
    else fixed
  }

  /** The request for one account: its active repositories. */
  function RequestFor(config: Config, user: string): Request
  {
    Request(config.url + "/repos/" + user + "?active=true", Headers(config.token))
  }

  /** The URL is the base URL, then `/repos/`, the account, and the active-only query. */
  lemma RequestUrlNamesUser(config: Config, user: string)
    ensures var u := RequestFor(config, user).url;
      && |u| == |config.url| + 7 + |user| + 12
      && u[..|config.url|] == config.url
      && u[|config.url|..|config.url| + 7] == "/repos/"
      && u[|config.url| + 7..|u| - 12] == user
      && u[|u| - 12..] == "?active=true"
  {
    var u := RequestFor(config, user).url;
    var n := |config.url|;
    assert u == config.url + "/repos/" + user + "?active=true";
    assert u[n + 7..|u| - 12] == user;
  }

  /** A repository record mapped to its summary. */
  function Summarize(repo: Repo): (p: Project)
    ensures p.project == repo.slug
    ensures !p.ok <==> repo.lastBuildState == Some("errored") || repo.lastBuildState == Some("failed")
    ensures !p.build <==> repo.lastBuildId == Null
  {
    Project(
      repo.slug,
      repo.lastBuildState != Some("errored") && repo.lastBuildState != Some("failed"),
      repo.lastBuildId != Null)
  }

  /** The summaries of `repos`, position by position. */
  function Summaries(repos: seq<Repo>): (ps: seq<Project>)
    ensures |ps| == |repos|
    ensures forall i :: 0 <= i < |repos| ==> ps[i] == Summarize(repos[i])
  {
    seq(|repos|, i requires 0 <= i < |repos| => Summarize(repos[i]))
  }

  /** Membership in the project allow-list (`this.project.includes(repo.slug)`). */
  function InAllowList(allow: seq<string>): Repo -> bool
  {
    (repo: Repo) => repo.slug in allow
  }

  const NoRepoData := "result does not contain any repo data"

  /** The message for a reply whose status code is not 200. */
  function BadStatus(code: nat): string
  {
    "Error: Got response code " + Text.NatToString(code)
  }

  /**
   * The callback of `readForUser` over an already-parsed body: reject on a
   * transport error, a status other than 200 or a body without `repos`;
   * otherwise apply the allow-list and summarise each repository.
   */
  function Interpret(allow: Option<seq<string>>, response: Response): (r: Result<seq<Project>>)
    ensures response.TransportError? ==> r == Err(response.error)
    ensures response.Reply? && response.statusCode != 200 ==> r == Err(BadStatus(response.statusCode))
    ensures response.Reply? && response.statusCode == 200 && response.body.repos.None? ==> r == Err(NoRepoData)
    ensures response.Reply? && response.statusCode == 200 && response.body.repos.Some? ==> r.Ok?
  {
    match response
    case TransportError(e) => Err(e)
    case Reply(code, body) =>
      if code != 200 then Err(BadStatus(code))
      else if body.repos.None? then Err(NoRepoData)
      else
        var repos := body.repos.value;
        var kept := if allow.Some? then Filter(repos, InAllowList(allow.value)) else repos;
        Ok(Summaries(kept))
  }

  /**
   * An accepted reply lists, in response order, the summary of every
   * repository whose slug is on the allow-list and of no other; without an
   * allow-list, the summary of every repository.
   */
  lemma InterpretSelects(allow: Option<seq<string>>, response: Response)
    requires Interpret(allow, response).Ok?
    ensures var repos := response.body.repos.value;
      var ps := Interpret(allow, response).value;
      && (allow.None? ==> |ps| == |repos| && forall i :: 0 <= i < |repos| ==> ps[i] == Summarize(repos[i]))
      && (allow.Some? ==>
            var idx := MatchingIndices(repos, InAllowList(allow.value));
            && |ps| == |idx|
            && (forall k :: 0 <= k < |idx| ==> ps[k] == Summarize(repos[idx[k]]))
            && (forall i :: 0 <= i < |repos| ==> (i in idx <==> repos[i].slug in allow.value)))
  {
    if allow.Some? {
      FilterPositions(response.body.repos.value, InAllowList(allow.value));
    }
  }

  /** `readForUser`: one request through the transport, and its interpretation. */
  function ReadForUser(config: Config, user: string, transport: Request -> Response): (r: Result<seq<Project>>)
    ensures var response := transport(RequestFor(config, user));
      r.Ok? <==> response.Reply? && response.statusCode == 200 && response.body.repos.Some?
  {
    Interpret(config.project, transport(RequestFor(config, user)))
  }

  /**
   * A poll that succeeds lists only repositories on the allow-list, when
   * there is one, and summarises each of them.
   */
  lemma ReadForUserOnlyListed(config: Config, user: string, transport: Request -> Response)
    requires ReadForUser(config, user, transport).Ok?
    ensures var response := transport(RequestFor(config, user));
      forall p :: p in ReadForUser(config, user, transport).value ==>
        && (exists repo :: repo in response.body.repos.value && p == Summarize(repo))
        && (config.project.Some? ==> p.project in config.project.value)
  {
    var response := transport(RequestFor(config, user));
    var repos := response.body.repos.value;
    var kept := if config.project.Some? then Filter(repos, InAllowList(config.project.value)) else repos;
    var ps := ReadForUser(config, user, transport).value;
    assert ps == Summaries(kept);
    forall p | p in ps
      ensures exists repo :: repo in repos && p == Summarize(repo)
      ensures config.project.Some? ==> p.project in config.project.value
    {
      var i :| 0 <= i < |ps| && ps[i] == p;
      assert kept[i] in repos && p == Summarize(kept[i]);
      if config.project.Some? {
        assert InAllowList(config.project.value)(kept[i]);
      }
    }
  }

  /** `this.user.map(user => this.readForUser(user))`. */
  function ReadAll(config: Config, transport: Request -> Response): (rs: seq<Result<seq<Project>>>)
    ensures |rs| == |config.users|
    ensures forall i :: 0 <= i < |rs| ==> rs[i] == ReadForUser(config, config.users[i], transport)
  {
    seq(|config.users|, i requires 0 <= i < |config.users| => ReadForUser(config, config.users[i], transport))
  }

  predicate IsErr<T>(r: Result<T>) { r.Err? }

  /** Whether the index `i` names a rejected call. */
  function RejectedAt<T>(rs: seq<Result<T>>): nat -> bool
  {
    (i: nat) => i < |rs| && rs[i].Err?
  }

  /**
   * The call whose rejection `Promise.all` reports. `completion` lists call
   * indices in the order they settle, which depends on timing; a rejected
   * call it does not list settles after all listed ones, lowest index first.
   */
  function Winner<T>(rs: seq<Result<T>>, completion: seq<nat>): (w: nat)
    requires FirstMatch(rs, IsErr) < |rs|
    ensures w < |rs| && rs[w].Err?
  {
    var k := FirstMatch(completion, RejectedAt(rs));
    if k < |completion| then completion[k] else FirstMatch(rs, IsErr)
  }

  /**
   * `Promise.all`: all values in call order when every call succeeded,
   * otherwise the error of the first call to reject.
   */
  function Join<T>(rs: seq<Result<T>>, completion: seq<nat>): (r: Result<seq<T>>)
    ensures r.Ok? <==> forall i :: 0 <= i < |rs| ==> rs[i].Ok?
    ensures r.Ok? ==> |r.value| == |rs| && forall i :: 0 <= i < |rs| ==> rs[i] == Ok(r.value[i])
    ensures r.Err? ==> exists i :: 0 <= i < |rs| && rs[i] == Err(r.error)
  {
    if FirstMatch(rs, IsErr) < |rs| then Err(rs[Winner(rs, completion)].error)
    else Ok(seq(|rs|, i requires 0 <= i < |rs| => rs[i].value))
  }

  /**
   * The reported error is that of the earliest-settling rejected call: no
   * call that settled before it was rejected.
   */
  lemma JoinReportsFirstRejection<T>(rs: seq<Result<T>>, completion: seq<nat>, k: nat)
    requires k < |completion| && completion[k] < |rs| && rs[completion[k]].Err?
    ensures var w := FirstMatch(completion, RejectedAt(rs));
      && w <= k
      && Join(rs, completion) == Err(rs[completion[w]].error)
      && forall j :: 0 <= j < w ==> !(completion[j] < |rs| && rs[completion[j]].Err?)
  {
    assert RejectedAt(rs)(completion[k]);
    assert IsErr(rs[completion[k]]);
  }

  /** When every call succeeds, the joined result does not depend on timing. */
  lemma JoinIgnoresTiming<T>(rs: seq<Result<T>>, c1: seq<nat>, c2: seq<nat>)
    requires forall i :: 0 <= i < |rs| ==> rs[i].Ok?
    ensures Join(rs, c1) == Join(rs, c2)
  {
  }
}
