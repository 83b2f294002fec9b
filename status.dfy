/**
 * The block's visible status, the `output` object i3status displays:
 * `setOutput` after a successful refresh and `handleError` after a failed one.
 */
module StatusOutput {
  import opened Configuration
  import Text

  const FullText := "full_text"
  const ShortText := "short_text"
  const Color := "color"

  /**
   * The status text for `broken` failing repositories: the success text when
   * there are none, the failure text for one, and the failure text followed
   * by " (n)" for more.
   */
  function StatusText(success: Status, failure: Status, broken: nat): (text: string)
    ensures broken == 0 ==> text == success.text
    ensures broken == 1 ==> text == failure.text
    ensures broken > 1 ==> text == failure.text + " (" + Text.NatToString(broken) + ")"
  {
    var text := if broken == 0 then success.text else failure.text;
    if broken > 1 then text + " (" + Text.NatToString(broken) + ")" else text
  }

  /** With more than one failure the exact count can be read back off the text. */
  lemma StatusTextCount(success: Status, failure: Status, broken: nat)
    requires broken > 1
    ensures var t := StatusText(success, failure, broken);
      var f := |failure.text|;
      && |t| >= f + 4
      && t[..f] == failure.text
      && t[f..f + 2] == " ("
      && t[|t| - 1] == ')'
      && (forall c :: c in t[f + 2..|t| - 1] ==> Text.IsDigit(c))
      && Text.ParseDecimal(t[f + 2..|t| - 1]) == broken
  {
    var t := StatusText(success, failure, broken);
    var f := |failure.text|;
    var digits := Text.NatToString(broken);
    assert t == failure.text + " (" + digits + ")";
    assert t[f + 2..|t| - 1] == digits;
    Text.ParseNatToString(broken);
  }

  /**
   * `setOutput` on the output object: both text fields get the status text;
   * with colouring on, `color` gets the success or failure colour.
   */
  function AfterSetOutput(config: Config, output: map<string, string>, broken: nat): (o: map<string, string>)
    ensures FullText in o && ShortText in o && o[FullText] == o[ShortText] == StatusText(config.success, config.failure, broken)
    ensures config.colorize ==> Color in o && o[Color] == (if broken == 0 then config.success.color else config.failure.color)
    ensures !config.colorize ==> (Color in o <==> Color in output) && (Color in output ==> o[Color] == output[Color])
    ensures forall k :: k in output && k != FullText && k != ShortText && k != Color ==> k in o && o[k] == output[k]
    ensures o.Keys == output.Keys + {FullText, ShortText} + (if config.colorize then {Color} else {})
  {
    var text := StatusText(config.success, config.failure, broken);
    var o := output[FullText := text][ShortText := text];
    if config.colorize then o[Color := if broken == 0 then config.success.color else config.failure.color] else o
  }

  /** `handleError` on the output object: both text fields get the message, nothing else changes. */
  function AfterHandleError(output: map<string, string>, error: string): (o: map<string, string>)
    ensures FullText in o && ShortText in o && o[FullText] == o[ShortText] == error
    ensures forall k :: k in output && k != FullText && k != ShortText ==> k in o && o[k] == output[k]
    ensures o.Keys == output.Keys + {FullText, ShortText}
  {
    output[FullText := error][ShortText := error]
  }

  /** A successful refresh after a failed one leaves no trace of the error. */
  lemma SuccessOverwritesError(config: Config, output: map<string, string>, error: string, broken: nat)
    ensures AfterSetOutput(config, AfterHandleError(output, error), broken) == AfterSetOutput(config, output, broken)
  {
    var a := AfterSetOutput(config, AfterHandleError(output, error), broken);
    var b := AfterSetOutput(config, output, broken);
    assert a.Keys == b.Keys;
    forall k | k in a.Keys
      ensures a[k] == b[k]
    {
    }
  }

  /** Setting the output twice for the same count is the same as setting it once. */
  lemma SetOutputIdempotent(config: Config, output: map<string, string>, broken: nat)
    ensures AfterSetOutput(config, AfterSetOutput(config, output, broken), broken) == AfterSetOutput(config, output, broken)
  {
    var a := AfterSetOutput(config, AfterSetOutput(config, output, broken), broken);
    var b := AfterSetOutput(config, output, broken);
    assert a.Keys == b.Keys;
  }
}
