/** scripts/create_single_account.py: the argument checks and the creation
    of one account at an address given on the command line, which replaces
    the generator's `generate_email` for the one call and restores it. */
module SingleAccountScript {
  import opened Wrappers
  import opened Account
  import opened EmailGeneration
  import opened Weverse
  import opened Creator

  datatype SingleArgs = SingleArgs(env: string, baseEmail: Option<string>, email: Option<string>)

  datatype ArgError = RealNeedsBaseEmail | EmailOnlyForQa | EmailsExclusive
  {
    function Order(): nat {
      match this
      case RealNeedsBaseEmail => 0
      case EmailOnlyForQa => 1
      case EmailsExclusive => 2
    }
  }

  predicate Fails(args: SingleArgs, e: ArgError) {
    match e
    case RealNeedsBaseEmail => args.env == "real" && !Truthy(args.baseEmail)
    case EmailOnlyForQa => Truthy(args.email) && args.env == "real"
    case EmailsExclusive => Truthy(args.baseEmail) && Truthy(args.email)
  }

  /** `validate_args`: each failing check's error once, in check order.
      "real" with an email always draws two errors, the email one and one
      about the base address (missing, or given as well). */
  method ValidateArgs(args: SingleArgs) returns (errors: seq<ArgError>)
    ensures forall e: ArgError :: e in errors <==> Fails(args, e)
    ensures forall i, j :: 0 <= i < j < |errors| ==> errors[i].Order() < errors[j].Order()
    ensures errors == [] <==> forall e: ArgError :: !Fails(args, e)
    ensures args.env == "real" && Truthy(args.email) ==> |errors| == 2 && EmailOnlyForQa in errors
    ensures args.env == "qa" && Truthy(args.email) && !Truthy(args.baseEmail) ==> errors == []
  {
    errors := [];
    if args.env == "real" && !Truthy(args.baseEmail) {
      errors := errors + [RealNeedsBaseEmail];
    }
    if Truthy(args.email) && args.env == "real" {
      errors := errors + [EmailOnlyForQa];
    }
    if Truthy(args.baseEmail) && Truthy(args.email) {
      errors := errors + [EmailsExclusive];
    }
    assert forall e: ArgError :: !Fails(args, e) ==> e !in errors;
    assert errors != [] ==> Fails(args, errors[0]);
  }

  /** Arguments that pass name at most one source of addresses, and an
      explicit email is never used with "real". */
  lemma AcceptedArgs(args: SingleArgs)
    requires forall e: ArgError :: !Fails(args, e)
    ensures !(Truthy(args.baseEmail) && Truthy(args.email))
    ensures args.env == "real" ==> Truthy(args.baseEmail) && !Truthy(args.email)
  {
    assert !Fails(args, RealNeedsBaseEmail) && !Fails(args, EmailOnlyForQa) && !Fails(args, EmailsExclusive);
  }

  class SingleAccountCreator {
    const creator: WeverseAccountCreator
    const specificEmail: Option<string>

    constructor (config: CreationConfig, specificEmail: Option<string>)
      ensures this.specificEmail == specificEmail && creator.config == config
      ensures fresh(creator) && fresh(creator.generator) && creator.accounts == []
      ensures creator.generator.usedEmails == {} && creator.generator.fixedEmail == None
    {
      this.specificEmail := specificEmail;
      creator := new WeverseAccountCreator(config);
    }

    /** `create_single_account_with_email`, always with index 0. With an
        email, the account gets exactly that address, the issued set is left
        alone, and the generator is restored afterwards. */
    method CreateSingleAccountWithEmail(email: Option<string>, att: AttemptInputs)
      returns (account: AccountInfo?, raised: bool)
      requires ValidInputs(att, creator.config)
      requires !Truthy(email) && creator.generator.fixedEmail.None? && creator.config.environment == "qa" ==>
        QaTerminates(creator.generator.usedEmails, att.entropy.qaPrefixes)
      modifies creator, creator.generator
      ensures creator.generator.fixedEmail == old(creator.generator.fixedEmail)
      ensures raised <==> !att.contextOpened
      ensures raised ==> account == null
      ensures !raised ==> account != null && fresh(account)
      ensures Truthy(email) ==> creator.generator.usedEmails == old(creator.generator.usedEmails)
      ensures Truthy(email) && !raised ==> account.email == email.value
      ensures old(creator.accounts) <= creator.accounts && |creator.accounts| <= |old(creator.accounts)| + 1
      ensures creator.gmail == old(creator.gmail)
      ensures var fixed := if Truthy(email) then Some(email.value) else old(creator.generator.fixedEmail);
        var refused := !raised && EmailRefused(creator.config, fixed, old(creator.generator.usedEmails), att);
        (raised || refused ==> creator.accounts == old(creator.accounts))
        && (refused ==> account.ToDict() == Record("unknown", "unknown", "unknown", None, CreationFailed.Value(),
                                                   att.now, att.now, creator.config.environment))
        && (!raised && !refused ==>
              PipelineAccount(creator.config, creator.GmailState(), 0, att, account.ToDict())
              && (SignupStatus(att.signup) == EmailVerificationPending ==>
                    creator.accounts == old(creator.accounts) + [account])
              && (SignupStatus(att.signup) != EmailVerificationPending ==>
                    creator.accounts == old(creator.accounts)))
    {
      if Truthy(email) {
        var original := creator.generator.fixedEmail;
        creator.generator.fixedEmail := Some(email.value);
        var refused;
        account, raised, refused := creator.CreateSingleAccount(0, att);
        creator.generator.fixedEmail := original;
      } else {
        var refused;
        account, raised, refused := creator.CreateSingleAccount(0, att);
      }
    }
  }
}
