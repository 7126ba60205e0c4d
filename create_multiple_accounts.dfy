/** scripts/create_multiple_accounts.py: the argument checks and the
    batch loop of `MultiAccountCreator`, which unlike the creator's own loop
    can keep going after an attempt raised. */
module MultipleAccountsScript {
  import opened Wrappers
  import opened Account
  import opened EmailGeneration
  import opened Gmail
  import opened Creator

  /** The arguments `validate_args` reads. */
  datatype MultiArgs = MultiArgs(
    env: string, count: int, baseEmail: Option<string>, delay: int, maxConcurrent: int)

  datatype ArgError =
    | RealNeedsBaseEmail
    | CountTooSmall
    | CountTooLarge
    | DelayNegative
    | ConcurrencyTooSmall
    | ConcurrencyTooLarge
  {
    /** The position of the check that reports this error. */
    function Order(): nat {
      match this
      case RealNeedsBaseEmail => 0
      case CountTooSmall => 1
      case CountTooLarge => 2
      case DelayNegative => 3
      case ConcurrencyTooSmall => 4
      case ConcurrencyTooLarge => 5
    }
  }

  const MAX_COUNT := 100
  const MAX_CONCURRENT := 5

  /** The condition under which each check reports its error. */
  predicate Fails(args: MultiArgs, e: ArgError) {
    match e
    case RealNeedsBaseEmail => args.env == "real" && !Truthy(args.baseEmail)
    case CountTooSmall => args.count <= 0
    case CountTooLarge => args.count > MAX_COUNT
    case DelayNegative => args.delay < 0
    case ConcurrencyTooSmall => args.maxConcurrent <= 0
    case ConcurrencyTooLarge => args.maxConcurrent > MAX_CONCURRENT
  }

  /** `validate_args`: every failing check contributes its error once, in
      check order, and nothing else is reported. */
  method ValidateArgs(args: MultiArgs) returns (errors: seq<ArgError>)
    ensures forall e: ArgError :: e in errors <==> Fails(args, e)
    ensures forall i, j :: 0 <= i < j < |errors| ==> errors[i].Order() < errors[j].Order()
    ensures errors == [] <==> forall e: ArgError :: !Fails(args, e)
    ensures !(CountTooSmall in errors && CountTooLarge in errors)
    ensures !(ConcurrencyTooSmall in errors && ConcurrencyTooLarge in errors)
  {
    errors := Check(args, [], RealNeedsBaseEmail);
    errors := Check(args, errors, CountTooSmall);
    errors := Check(args, errors, CountTooLarge);
    errors := Check(args, errors, DelayNegative);
    errors := Check(args, errors, ConcurrencyTooSmall);
    errors := Check(args, errors, ConcurrencyTooLarge);
    ChecksDone(args, errors);
  }

  /** One `if <condition>: errors.append(<message>)` of `validate_args`. */
  method Check(args: MultiArgs, errors: seq<ArgError>, e: ArgError) returns (r: seq<ArgError>)
    requires e.Order() == 0 ==> errors == []
    requires e.Order() > 0 ==> ChecksUpTo(args, errors, e.Order())
    ensures ChecksUpTo(args, r, e.Order() + 1)
  {
    r := errors;
    if Fails(args, e) {
      r := r + [e];
    }
    CheckStep(args, errors, e, r);
  }

  /** After the checks of order below `n`: the errors are exactly those of
      the failing ones, in check order. */
  ghost predicate ChecksUpTo(args: MultiArgs, errors: seq<ArgError>, n: nat) {
    (forall e: ArgError :: e in errors <==> Fails(args, e) && e.Order() < n)
    && (forall i, j :: 0 <= i < j < |errors| ==> errors[i].Order() < errors[j].Order())
    && (forall i :: 0 <= i < |errors| ==> errors[i].Order() < n)
  }

  /** One more check keeps `ChecksUpTo`. */
  lemma CheckStep(args: MultiArgs, before: seq<ArgError>, e: ArgError, after: seq<ArgError>)
    requires e.Order() == 0 ==> before == []
    requires e.Order() > 0 ==> ChecksUpTo(args, before, e.Order())
    requires after == if Fails(args, e) then before + [e] else before
    ensures ChecksUpTo(args, after, e.Order() + 1)
  {
    forall e': ArgError ensures e' in after <==> Fails(args, e') && e'.Order() < e.Order() + 1 {
      if e' != e {
        assert e'.Order() != e.Order() by {
          OrderInjective(e', e);
        }
      }
    }
  }

  lemma OrderInjective(a: ArgError, b: ArgError)
    ensures a.Order() == b.Order() ==> a == b
  {
  }

  /** After the last check, the postconditions of `ValidateArgs`. */
  lemma ChecksDone(args: MultiArgs, errors: seq<ArgError>)
    requires ChecksUpTo(args, errors, 6)
    ensures forall e: ArgError :: e in errors <==> Fails(args, e)
    ensures errors == [] <==> forall e: ArgError :: !Fails(args, e)
  {
    assert errors != [] ==> errors[0] in errors;
  }

  /** The mark printed after each attempt. */
  function ResultMark(r: Record): (m: string)
    ensures m == "🎉" <==> IsCompletedValue(r.status)
    ensures m == "❌" <==> IsFailedValue(r.status)
    ensures m == "⏳" <==> !IsCompletedValue(r.status) && !IsFailedValue(r.status)
  {
    CompletedExcludesFailed(r.status);
    if IsCompletedValue(r.status) then "🎉" else if IsFailedValue(r.status) then "❌" else "⏳"
  }

  class MultiAccountCreator {
    const creator: WeverseAccountCreator
    const continueOnError: bool

    constructor (config: CreationConfig, continueOnError: bool)
      ensures this.continueOnError == continueOnError && creator.config == config
      ensures fresh(creator) && fresh(creator.generator) && creator.accounts == []
      ensures creator.generator.usedEmails == {} && creator.generator.fixedEmail == None
      ensures creator.gmail != null ==> fresh(creator.gmail)
    {
      this.continueOnError := continueOnError;
      creator := new WeverseAccountCreator(config);
    }

    /** `create_multiple_accounts_with_progress`. Each attempt that raises
        ends the loop unless `continueOnError`; the delay follows every
        attempt but the last one that the loop reaches the end of.
        `stopped` says that the loop broke off. As in the creator's own
        loop, `issued`, `kept` and `made` trace the attempts: an attempt
        that raised and was passed over keeps no account. */
    method CreateMultipleAccountsWithProgress(connection: Connection, inputs: nat -> AttemptInputs)
      returns (attempts: nat, sleeps: nat, stopped: bool,
               ghost issued: seq<set<string>>, ghost kept: seq<nat>, ghost made: seq<AccountInfo>)
      requires forall k: nat :: ValidInputs(inputs(k), creator.config)
      requires creator.config.environment == "qa" && creator.generator.fixedEmail.None? ==>
        forall k: nat, used: set<string> ::
          k < creator.config.count && |used| <= |creator.generator.usedEmails| + k ==>
            QaTerminates(used, inputs(k).entropy.qaPrefixes)
      modifies creator, creator.generator, creator.gmail
      ensures old(creator.gmail) == null ==> creator.gmail == null
      ensures old(creator.gmail) != null ==>
        (connection == Connected ==> creator.gmail == old(creator.gmail) && creator.gmail.initialized)
        && (connection != Connected ==> creator.gmail == null)
      ensures var count := if creator.config.count < 0 then 0 else creator.config.count;
        attempts <= count
        && (stopped ==> !continueOnError && attempts >= 1 && !inputs(attempts - 1).contextOpened)
        && (!stopped ==> attempts == count)
        && (!continueOnError ==> forall k :: 0 <= k < attempts - 1 ==> inputs(k).contextOpened)
        && (!continueOnError && !stopped ==> forall k :: 0 <= k < attempts ==> inputs(k).contextOpened)
        && sleeps == (if creator.config.delay > 0 && attempts > 0 then attempts - 1 else 0)
      ensures old(creator.accounts) <= creator.accounts && |creator.accounts| <= |old(creator.accounts)| + attempts
      ensures BatchTrace(creator.config, creator.generator.fixedEmail, creator.GmailState(),
                         inputs, attempts, issued, kept, Snapshot(made))
      ensures issued[0] == old(creator.generator.usedEmails) && issued[attempts] == creator.generator.usedEmails
      ensures creator.accounts == old(creator.accounts) + made
    {
      var ok := creator.InitializeServices(connection);
      assert forall k: nat :: ValidInputsAt(inputs, creator.config, k);
      attempts, sleeps, stopped, issued, kept, made := ProgressAttempts(inputs);
    }

    /** The attempt loop of `create_multiple_accounts_with_progress`. */
    method ProgressAttempts(inputs: nat -> AttemptInputs)
      returns (attempts: nat, sleeps: nat, stopped: bool,
               ghost issued: seq<set<string>>, ghost kept: seq<nat>, ghost made: seq<AccountInfo>)
      requires RunInputs(inputs, creator.config, creator.generator.fixedEmail, |creator.generator.usedEmails|)
      modifies creator, creator.generator
      ensures creator.gmail == old(creator.gmail)
      ensures var count := if creator.config.count < 0 then 0 else creator.config.count;
        attempts <= count
        && (stopped ==> !continueOnError && attempts >= 1 && !inputs(attempts - 1).contextOpened)
        && (!stopped ==> attempts == count)
        && (!continueOnError ==> forall k :: 0 <= k < attempts - 1 ==> inputs(k).contextOpened)
        && (!continueOnError && !stopped ==> forall k :: 0 <= k < attempts ==> inputs(k).contextOpened)
        && sleeps == (if creator.config.delay > 0 && attempts > 0 then attempts - 1 else 0)
      ensures old(creator.accounts) <= creator.accounts && |creator.accounts| <= |old(creator.accounts)| + attempts
      ensures BatchTrace(creator.config, creator.generator.fixedEmail, creator.GmailState(),
                         inputs, attempts, issued, kept, Snapshot(made))
      ensures issued[0] == old(creator.generator.usedEmails) && issued[attempts] == creator.generator.usedEmails
      ensures creator.accounts == old(creator.accounts) + made
    {
      var count := creator.config.count;
      attempts, sleeps, stopped := 0, 0, false;
      ghost var used0 := |creator.generator.usedEmails|;
      issued, kept, made := [creator.generator.usedEmails], [], [];
      ghost var opens := 0;
      ghost var fixed, g, recs := creator.generator.fixedEmail, creator.GmailState(), [];
      while attempts < count && !stopped
        invariant count >= 0 ==> attempts <= count
        invariant count < 0 ==> attempts == 0
        invariant stopped ==> !continueOnError && attempts >= 1 && !inputs(attempts - 1).contextOpened
        invariant !continueOnError ==> opens == (if stopped then attempts - 1 else attempts)
        invariant forall k :: 0 <= k < opens ==> OpenedAt(inputs, k)
        invariant sleeps == (if creator.config.delay > 0 && attempts > 0 then
                               (if attempts < count && !stopped then attempts else attempts - 1) else 0)
        invariant creator.gmail == old(creator.gmail)
        invariant fixed == creator.generator.fixedEmail && g == creator.GmailState() && recs == Snapshot(made)
        invariant |creator.generator.usedEmails| <= used0 + attempts
        invariant BatchTrace(creator.config, fixed, g, inputs, attempts, issued, kept, recs)
        invariant issued[0] == old(creator.generator.usedEmails) && issued[attempts] == creator.generator.usedEmails
        invariant creator.accounts == old(creator.accounts) + made
      {
        var raised;
        raised, issued, kept, made, recs :=
          creator.TracedAttempt(inputs, used0, old(creator.accounts), attempts, fixed, g, issued, kept, made, recs);
        if raised && !continueOnError {
          stopped := true;
        } else {
          if !continueOnError {
            OpenedStep(inputs, opens);
            opens := opens + 1;
          }
          if attempts + 1 < count && creator.config.delay > 0 {
            sleeps := sleeps + 1;
          }
        }
        attempts := attempts + 1;
      }
      KeptAtMost(attempts, issued, kept, recs);
      AppendBound(old(creator.accounts), made, attempts);
      if !continueOnError {
        OpenedBefore(inputs, opens, attempts, stopped);
      }
    }
  }
}
