/** scripts/run_automation.py: the checks on the collected settings and the
    choice between the interactive prompts and the command line. */
module AutomationScript {
  import opened Wrappers

  /** The settings dictionary; a missing key is `None`. */
  datatype Settings = Settings(
    environment: Option<string>, count: Option<int>, baseEmail: Option<string>, delay: Option<int>)

  datatype SettingsError = EnvironmentMissing | CountNotPositive | RealNeedsBaseEmail | NegativeDelay
  {
    function Order(): nat {
      match this
      case EnvironmentMissing => 0
      case CountNotPositive => 1
      case RealNeedsBaseEmail => 2
      case NegativeDelay => 3
    }
  }

  /** `not count or count <= 0`: a missing count fails, and so does zero. */
  predicate CountFails(count: Option<int>) {
    count.None? || count.value <= 0
  }

  /** A missing delay is taken as zero. */
  function DelayOrZero(delay: Option<int>): int {
    if delay.Some? then delay.value else 0
  }

  predicate Fails(s: Settings, e: SettingsError) {
    match e
    case EnvironmentMissing => !Truthy(s.environment)
    case CountNotPositive => CountFails(s.count)
    case RealNeedsBaseEmail => s.environment == Some("real") && !Truthy(s.baseEmail)
    case NegativeDelay => DelayOrZero(s.delay) < 0
  }

  /** `validate_config`: each failing check's error once, in check order.
      There is no upper bound on the count. */
  method ValidateConfig(s: Settings) returns (errors: seq<SettingsError>)
    ensures forall e: SettingsError :: e in errors <==> Fails(s, e)
    ensures forall i, j :: 0 <= i < j < |errors| ==> errors[i].Order() < errors[j].Order()
    ensures errors == [] <==> forall e: SettingsError :: !Fails(s, e)
  {
    errors := [];
    if !Truthy(s.environment) {
      errors := errors + [EnvironmentMissing];
    }
    if s.count.None? || s.count.value == 0 || s.count.value <= 0 {
      errors := errors + [CountNotPositive];
    }
    if s.environment == Some("real") && !Truthy(s.baseEmail) {
      errors := errors + [RealNeedsBaseEmail];
    }
    var delay := if s.delay.Some? then s.delay.value else 0;
    if delay < 0 {
      errors := errors + [NegativeDelay];
    }
    assert forall e: SettingsError :: !Fails(s, e) ==> e !in errors;
    assert errors != [] ==> Fails(s, errors[0]);
  }

  /** `args.interactive or not args.env or not args.count`. */
  predicate UsesPrompts(interactive: bool, env: Option<string>, count: Option<int>) {
    interactive || !Truthy(env) || count.None? || count == Some(0)
  }

  /** Settings taken from the command line have an environment and a
      non-zero count, so of the count check only a negative count can fail
      there, and the environment check never does. */
  lemma CommandLineSettings(interactive: bool, env: Option<string>, count: Option<int>,
                            baseEmail: Option<string>, delay: int)
    requires !UsesPrompts(interactive, env, count)
    ensures var s := Settings(env, count, baseEmail, Some(delay));
      !Fails(s, EnvironmentMissing)
      && (Fails(s, CountNotPositive) <==> count.value < 0)
      && (Fails(s, NegativeDelay) <==> delay < 0)
  {
  }

  /** The prompts are chosen exactly when asked for, or when the command
      line lacks an environment or gives no or a zero count. */
  lemma PromptsChoice(interactive: bool, env: Option<string>, count: Option<int>)
    ensures !interactive && Truthy(env) && count.Some? && count.value != 0 ==>
      !UsesPrompts(interactive, env, count)
    ensures interactive || env.None? || env == Some("") || count.None? || count == Some(0) ==>
      UsesPrompts(interactive, env, count)
  {
  }
}
