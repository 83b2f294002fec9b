/**
 * The block's configuration: the options object handed to the constructor,
 * its validation, and the defaults filled in from `defaultParameter`.
 */
module Configuration {
  import opened Results
  import Seqs

  /**
   * A `user` or `project` option as JavaScript hands it over: absent, a
   * string, an array of strings, or any other value (a number, an object,
   * `null`, a boolean), of which only its truthiness matters here.
   */
  datatype Setting = Undefined | Str(s: string) | Arr(items: seq<string>) | Other(truthy: bool)

  /** JavaScript truthiness of a setting: `undefined` and `''` are falsy, every array is truthy. */
  predicate Truthy(v: Setting)
  {
    match v
    case Undefined => false
    case Str(s) => s != ""
    case Arr(_) => true
    case Other(t) => t
  }

  /** The `success` / `failure` option objects; either field may be left out. */
  datatype StatusOptions = StatusOptions(text: Option<string>, color: Option<string>)

  /** The `report` option object. */
  datatype ReportOptions = ReportOptions(dots: Option<bool>, showSuccess: Option<bool>, sortByName: Option<bool>)

  /** The constructor's options object; `None` is a field left `undefined`. */
  datatype Options = Options(
    url: Option<string>,
    projectUrl: Option<string>,
    token: Option<string>,
    user: Setting,
    project: Setting,
    success: Option<StatusOptions>,
    failure: Option<StatusOptions>,
    colorize: Option<bool>,
    report: Option<ReportOptions>)

  /** A status template with every field filled in. */
  datatype Status = Status(text: string, color: string)

  /** The report settings, including the style block derived from the colours. */
  datatype ReportSettings = ReportSettings(dots: bool, showSuccess: bool, sortByName: bool, userStyle: string)

  /** The block's fields after construction; never changed afterwards. */
  datatype Config = Config(
    url: string,
    projectUrl: string,
    token: Option<string>,
    users: seq<string>,
    project: Option<seq<string>>,
    success: Status,
    failure: Status,
    colorize: bool,
    report: ReportSettings)

  const DefaultUrl := "https://api.travis-ci.org"
  const DefaultProjectUrl := "https://travis-ci.org"
  const DefaultSuccess := Status("", "#00FF00")
  const DefaultFailure := Status("", "#FF0000")
  const DefaultDots := true
  const DefaultShowSuccess := false
  const DefaultSortByName := false

  const UserMissing := "config value user is missing"

  /** The message thrown for an option that is neither a string nor an array. */
  function NotStringOrArray(name: string): string
  {
    "config value " + name + " must be a string or an array"
  }

  /**
   * `optionToArray`: a string becomes a one-element list, a list is kept,
   * `undefined` stays absent, and anything else is rejected naming the field.
   */
  function OptionToArray(option: Setting, name: string): (r: Result<Option<seq<string>>>)
    ensures r.Err? <==> option.Other?
    ensures r.Err? ==> r.error == NotStringOrArray(name)
    ensures option.Undefined? ==> r == Ok(None)
    ensures option.Str? ==> r == Ok(Some([option.s]))
    ensures option.Arr? ==> r == Ok(Some(option.items))
  {
    match option
    case Undefined => Ok(None)
    case Str(s) => Ok(Some([s]))
    case Arr(items) => Ok(Some(items))
    case Other(_) => Err(NotStringOrArray(name))
  }

  /** Normalising an already normalised list again changes nothing. */
  lemma OptionToArrayIdempotent(option: Setting, name: string)
    requires OptionToArray(option, name).Ok? && OptionToArray(option, name).value.Some?
    ensures var list := OptionToArray(option, name).value.value;
      OptionToArray(Arr(list), name) == OptionToArray(option, name)
  {
  }

  /** `Object.assign({}, defaults, given)` on a status object. */
  function MergeStatus(defaults: Status, given: Option<StatusOptions>): Status
  {
    match given
    case None => defaults
    case Some(o) => Status(o.text.GetOr(defaults.text), o.color.GetOr(defaults.color))
  }

  /** `given && given.color`, read as a truth value. */
  predicate ColorGiven(given: Option<StatusOptions>)
  {
    given.Some? && given.value.color.Some? && given.value.color.value != ""
  }

  /** The CSS handed to the reporter, interpolating the two colours. */
  function UserStyle(success: string, failure: string): string
  {
    Seqs.Flatten([
      ".project-green a {color: ", success, "}\n",
      "        .project-red a{color: ", failure, "}\n",
      "        .circle{width: 1em;height: 1em;float: left;border-radius: 50%;margin-right: .5em;}\n",
      "        .circle-green{background: ", success, "}\n",
      "        .circle-red{background: ", failure, "}"])
  }

  /** `Object.assign({}, defaultParameter.report, report)` plus the style block. */
  function MergeReport(given: Option<ReportOptions>, success: Status, failure: Status): ReportSettings
  {
    var o := given.GetOr(ReportOptions(None, None, None));
    ReportSettings(
      o.dots.GetOr(DefaultDots),
      o.showSuccess.GetOr(DefaultShowSuccess),
      o.sortByName.GetOr(DefaultSortByName),
      UserStyle(success.color, failure.color))
  }

  /**
   * The constructor: reject a falsy `user`, normalise `user` and then
   * `project` (the first bad one is reported), and fill in the defaults.
   */
  function Configure(opts: Options): (r: Result<Config>)
    ensures r.Err? <==> !Truthy(opts.user) || opts.user.Other? || opts.project.Other?
    ensures !Truthy(opts.user) ==> r == Err(UserMissing)
    ensures Truthy(opts.user) && opts.user.Other? ==> r == Err(NotStringOrArray("user"))
    ensures Truthy(opts.user) && !opts.user.Other? && opts.project.Other? ==> r == Err(NotStringOrArray("project"))
  {
    if !Truthy(opts.user) then Err(UserMissing)
    else
      var users := OptionToArray(opts.user, "user");
      if users.Err? then Err(users.error)
      else
        var project := OptionToArray(opts.project, "project");
        if project.Err? then Err(project.error)
        else
          var success := MergeStatus(DefaultSuccess, opts.success);
          var failure := MergeStatus(DefaultFailure, opts.failure);
          Ok(Config(
            opts.url.GetOr(DefaultUrl),
            opts.projectUrl.GetOr(DefaultProjectUrl),
            opts.token,
            users.value.GetOr([]),
            project.value,
            success,
            failure,
            opts.colorize.GetOr(ColorGiven(opts.failure) || ColorGiven(opts.success)),
            MergeReport(opts.report, success, failure)))
  }

  /** An accepted `user` and `project` are stored in their normalised form. */
  lemma ConfigureNormalises(opts: Options)
    requires Configure(opts).Ok?
    ensures var c := Configure(opts).value;
      && (opts.user.Str? ==> c.users == [opts.user.s])
      && (opts.user.Arr? ==> c.users == opts.user.items)
      && (c.project.None? <==> opts.project.Undefined?)
      && (opts.project.Str? ==> c.project == Some([opts.project.s]))
      && (opts.project.Arr? ==> c.project == Some(opts.project.items))
  {
  }

  /** The options object with only `user` set. */
  function OnlyUser(user: string): Options
  {
    Options(None, None, None, Str(user), Undefined, None, None, None, None)
  }

  /** Constructed from a user name alone, every field takes its default. */
  lemma DefaultsApplied(user: string)
    requires user != ""
    ensures Configure(OnlyUser(user)) == Ok(Config(
      "https://api.travis-ci.org", "https://travis-ci.org", None, [user], None,
      Status("", "#00FF00"), Status("", "#FF0000"), false,
      ReportSettings(true, false, false, UserStyle("#00FF00", "#FF0000"))))
  {
  }

  /**
   * Given fields win over the defaults, field by field, and colouring is on
   * by default exactly when a custom colour was given.
   */
  lemma OverridesKept(opts: Options)
    requires Configure(opts).Ok?
    ensures var c := Configure(opts).value;
      && (opts.url.Some? ==> c.url == opts.url.value)
      && (opts.url.None? ==> c.url == DefaultUrl)
      && (opts.projectUrl.Some? ==> c.projectUrl == opts.projectUrl.value)
      && (opts.projectUrl.None? ==> c.projectUrl == DefaultProjectUrl)
      && c.token == opts.token
      && (opts.success.Some? && opts.success.value.text.Some? ==> c.success.text == opts.success.value.text.value)
      && (opts.success.Some? && opts.success.value.text.None? ==> c.success.text == DefaultSuccess.text)
      && (opts.success.Some? && opts.success.value.color.Some? ==> c.success.color == opts.success.value.color.value)
      && (opts.success.Some? && opts.success.value.color.None? ==> c.success.color == DefaultSuccess.color)
      && (opts.success.None? ==> c.success == DefaultSuccess)
      && (opts.failure.Some? && opts.failure.value.text.Some? ==> c.failure.text == opts.failure.value.text.value)
      && (opts.failure.Some? && opts.failure.value.text.None? ==> c.failure.text == DefaultFailure.text)
      && (opts.failure.Some? && opts.failure.value.color.Some? ==> c.failure.color == opts.failure.value.color.value)
      && (opts.failure.Some? && opts.failure.value.color.None? ==> c.failure.color == DefaultFailure.color)
      && (opts.failure.None? ==> c.failure == DefaultFailure)
      && (opts.colorize.Some? ==> c.colorize == opts.colorize.value)
      && (opts.colorize.None? ==> (c.colorize <==> ColorGiven(opts.failure) || ColorGiven(opts.success)))
      && (opts.report.None? ==> c.report.dots && !c.report.showSuccess && !c.report.sortByName)
      && (opts.report.Some? && opts.report.value.dots.Some? ==> c.report.dots == opts.report.value.dots.value)
      && (opts.report.Some? && opts.report.value.showSuccess.Some? ==> c.report.showSuccess == opts.report.value.showSuccess.value)
      && (opts.report.Some? && opts.report.value.sortByName.Some? ==> c.report.sortByName == opts.report.value.sortByName.value)
      && (opts.report.Some? && opts.report.value.dots.None? ==> c.report.dots == DefaultDots)
      && (opts.report.Some? && opts.report.value.showSuccess.None? ==> c.report.showSuccess == DefaultShowSuccess)
      && (opts.report.Some? && opts.report.value.sortByName.None? ==> c.report.sortByName == DefaultSortByName)
      && c.report.userStyle == UserStyle(c.success.color, c.failure.color)
  {
  }
}
