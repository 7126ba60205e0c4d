/** The pipeline of src/core/account_creator.py: one account goes through
    email generation, signup, email verification and login with WID
    extraction; accounts that passed the signup form are kept in the
    creator's list, which the statistics and filters read.

    Everything an attempt depends on from outside (the browser, the mail
    box, random draws and the clock) is bundled in `AttemptInputs`. */
module Creator {
  import opened Wrappers
  import opened Text
  import opened Account
  import opened EmailGeneration
  import opened Helpers
  import opened Gmail
  import opened Weverse

  /** What the page showed when the login had failed and the creator looked
      again for the abnormal-access text. */
  datatype Recheck = AbnormalShown | NotShown | RecheckRaised

  datatype AttemptInputs = AttemptInputs(
    contextOpened: bool,             // `browser.new_context()` did not raise
    entropy: Entropy,
    passwordDraw: PasswordDraw,
    nicknameSuffix: string,
    signup: SignupPage,
    mailPasses: nat -> Listing,      // the polls of `find_verification_email`
    readers: Readers,
    login: LoginPage,
    recheck: Recheck,
    challenge: ChallengePage,
    latestListing: Listing,          // the listing `get_latest_verification_code` reads
    now: Timestamp)

  /** The draws an attempt uses are of the shapes the generators produce. */
  ghost predicate ValidInputs(att: AttemptInputs, c: CreationConfig) {
    ValidEntropy(att.entropy)
    && (!Truthy(c.customPassword) ==> ValidPasswordDraw(att.passwordDraw))
    && (!Truthy(c.customNickname) ==> IsRandomString(att.nicknameSuffix, NICKNAME_SUFFIX_LENGTH))
  }

  /** `ValidInputs` for attempt `k` of a run. */
  ghost predicate ValidInputsAt(inputs: nat -> AttemptInputs, c: CreationConfig, k: nat) {
    ValidInputs(inputs(k), c)
  }

  /** What a run of attempts needs of its inputs, when `used0` addresses
      were issued before it: valid draws for every attempt, and in "qa"
      (with no fixed address) a drawn prefix still free however many
      addresses the earlier attempts issued. */
  ghost predicate RunInputs(inputs: nat -> AttemptInputs, c: CreationConfig, fixed: Option<string>, used0: nat) {
    (forall k: nat :: ValidInputsAt(inputs, c, k))
    && (c.environment == "qa" && fixed.None? ==>
          forall k: nat, used: set<string> :: k < c.count && |used| <= used0 + k ==>
            QaTerminates(used, inputs(k).entropy.qaPrefixes))
  }

  /** What the creator holds of the Gmail service. */
  datatype GmailView = NoGmail | GmailAt(initialized: bool)

  /** `find_verification_email` is called with its default wait of two
      minutes. */
  const DEFAULT_WAIT_MINUTES := 2

  /** `_handle_email_verification`. */
  function VerificationStatus(g: GmailView, att: AttemptInputs): Status {
    if g.NoGmail? then EmailVerificationPending
    else
      var link := if g.initialized
                  then LinkSearch(att.mailPasses, att.readers, DEFAULT_WAIT_MINUTES * PASSES_PER_MINUTE, 0)
                  else None;
      if Truthy(link) then EmailVerified else EmailVerificationFailed
  }

  /** The code the challenge path enters. */
  function LatestCode(g: GmailView, att: AttemptInputs): Option<string> {
    if g.GmailAt? && g.initialized then
      var cs := ListingCodes(att.latestListing, LATEST_LIST_SIZE, None, att.readers.decode);
      if cs == [] then None else Some(cs[NewestIndex(cs)].code)
    else None
  }

  /** `_login_and_extract_wid`: the plain login; after a failure, the
      abnormal-access text with Gmail leads to the challenge path, without
      Gmail to "email_verification_failed", and its absence (or an error
      looking for it) to "wid_extraction_failed". */
  function LoginStage(a: Record, att: AttemptInputs, g: GmailView): Record {
    var o := LoginOutcome(a, att.login, att.now);
    if o.ok then o.record
    else if att.recheck == AbnormalShown then
      if g.GmailAt? then
        var c := ChallengeOutcome(o.record, LatestCode(g, att), att.challenge, att.now);
        if c.ok then c.record else c.record.(status := WidExtractionFailed.Value(), updatedAt := att.now)
      else o.record.(status := EmailVerificationFailed.Value(), updatedAt := att.now)
    else o.record.(status := WidExtractionFailed.Value(), updatedAt := att.now)
  }

  /** The account after signup, verification and login, from the record it
      was constructed with. */
  function Pipeline(a: Record, att: AttemptInputs, g: GmailView): Record {
    var s := SignupStatus(att.signup);
    var signedUp := a.(status := s.Value(), updatedAt := att.now);
    if s != EmailVerificationPending then signedUp
    else
      var v := VerificationStatus(g, att);
      var verified := signedUp.(status := v.Value(), updatedAt := att.now);
      if v != EmailVerified then verified else LoginStage(verified, att, g)
  }

  /** The login stage changes only status, WID and update time, ends in
      "completed" (with a WID), "wid_extraction_failed" or
      "email_verification_failed", and a page that showed only the OTP
      field, without the abnormal-access text on the second look, ends in
      "wid_extraction_failed". */
  lemma LoginStageOutcomes(v: Record, att: AttemptInputs, g: GmailView)
    ensures var r := LoginStage(v, att, g);
      r.(wid := v.wid, status := v.status, updatedAt := v.updatedAt) == v
      && (r.status == Completed.Value() ==> Truthy(r.wid))
      && r.status in {Completed.Value(), WidExtractionFailed.Value(), EmailVerificationFailed.Value()}
      && (att.login.formFilled && att.login.check == Checked(false, true) && att.recheck != AbnormalShown ==>
            r.status == WidExtractionFailed.Value())
  {
    LoginStatuses(v, att.login, att.now);
    var o := LoginOutcome(v, att.login, att.now);
    if !o.ok && att.recheck == AbnormalShown && g.GmailAt? {
      ChallengeStatuses(o.record, LatestCode(g, att), att.challenge, att.now);
    }
  }

  /** Where an attempt can end. Login is tried only after a verified email;
      "completed" always comes with a WID; the challenge is taken only on
      the abnormal-access text, so a page that showed only the OTP field
      ends in "wid_extraction_failed". Nothing but status, WID and update
      time ever changes. */
  lemma PipelineOutcomes(a: Record, att: AttemptInputs, g: GmailView)
    requires a.wid == None
    ensures var r := Pipeline(a, att, g);
      var s := SignupStatus(att.signup);
      r.(wid := a.wid, status := a.status, updatedAt := a.updatedAt) == a
      && (s != EmailVerificationPending ==> r == a.(status := s.Value(), updatedAt := att.now))
      && (s == EmailVerificationPending && VerificationStatus(g, att) != EmailVerified ==>
            r.wid == None && r.status == VerificationStatus(g, att).Value())
      && (r.status == Completed.Value() ==> Truthy(r.wid))
      && (s == EmailVerificationPending && VerificationStatus(g, att) == EmailVerified ==>
            r.status in {Completed.Value(), WidExtractionFailed.Value(), EmailVerificationFailed.Value()})
      && (s == EmailVerificationPending && VerificationStatus(g, att) == EmailVerified
          && att.login.formFilled && att.login.check == Checked(false, true) && att.recheck != AbnormalShown ==>
            r.status == WidExtractionFailed.Value())
  {
    var s := SignupStatus(att.signup);
    if s == EmailVerificationPending && VerificationStatus(g, att) == EmailVerified {
      var signedUp := a.(status := s.Value(), updatedAt := att.now);
      var verified := signedUp.(status := EmailVerified.Value(), updatedAt := att.now);
      LoginStageOutcomes(verified, att, g);
    } else if s != EmailVerificationPending {
      ValueInjective(s, Completed);
    } else {
      ValueInjective(VerificationStatus(g, att), Completed);
    }
  }

  /** An address `generate_email` may hand out while `used` holds the
      issued ones: the fixed address of the single-account script, a fresh
      random QA address, or the dot-search pick. */
  ghost predicate IssuedAddress(c: CreationConfig, fixed: Option<string>, used: set<string>,
                                att: AttemptInputs, email: string) {
    if fixed.Some? then email == fixed.value
    else if c.environment == "qa" then
      |email| == 8 + |QA_DOMAIN| && IsRandomString(email[..8], 8) && email[8..] == QA_DOMAIN
      && email !in used
    else
      ValidEntropy(att.entropy)
      && var spec := NonQaSpec(used, c.environment, c.baseEmail, att.entropy);
      spec.Success? && email == spec.value.email
  }

  /** `generate_email` raises: only outside "qa", when the dot search
      refuses. */
  ghost predicate EmailRefused(c: CreationConfig, fixed: Option<string>, used: set<string>,
                               att: AttemptInputs) {
    fixed.None? && c.environment != "qa" && ValidEntropy(att.entropy)
    && NonQaSpec(used, c.environment, c.baseEmail, att.entropy).Failure?
  }

  /** The record of an account that attempt `index` built (status
      "created", no WID, the attempt's nickname and clock reading) and ran
      through the pipeline, with the configured or a well-formed password. */
  ghost predicate PipelineAccount(c: CreationConfig, g: GmailView, index: int, att: AttemptInputs, r: Record) {
    (!Truthy(c.customNickname) ==> IsRandomString(att.nicknameSuffix, NICKNAME_SUFFIX_LENGTH))
    && var nickname := GenerateNickname(c.customNickname, if c.count > 1 then Some(index) else None,
                                        att.nicknameSuffix);
    r == Pipeline(Record(r.email, r.password, nickname, None, Created.Value(), att.now, att.now, c.environment),
                  att, g)
    && (Truthy(c.customPassword) ==> r.password == c.customPassword.value)
    && (!Truthy(c.customPassword) ==> GoodPassword(r.password))
  }

  /** What the first `n` attempts of a batch left behind. `issued[k]` holds
      the addresses issued before attempt `k` (`issued[n]` those after the
      last one); `kept` lists, in increasing order, the attempts whose
      account was kept, and `recs` the records of those accounts. */
  ghost predicate BatchTrace(c: CreationConfig, fixed: Option<string>, g: GmailView,
                             inputs: nat -> AttemptInputs, n: nat,
                             issued: seq<set<string>>, kept: seq<nat>, recs: seq<Record>)
  {
    TraceShape(n, issued, kept, recs)
    && KeptExactly(c, fixed, inputs, n, issued, kept)
    && KeptAccounts(KeptRecordOf(c, fixed, g, inputs), issued, kept, recs)
    && IssuesOneAtATime(fixed, n, issued)
  }

  /** The lengths, and `kept` increasing below `n`. */
  ghost predicate TraceShape(n: nat, issued: seq<set<string>>, kept: seq<nat>, recs: seq<Record>) {
    |issued| == n + 1 && |kept| == |recs|
    && (forall j :: 0 <= j < |kept| ==> KeptBelow(kept, j, n))
    && (forall j, l :: 0 <= j < l < |kept| ==> KeptBefore(kept, j, l))
  }

  /** The `j`-th kept attempt is one of the first `n`. */
  ghost predicate KeptBelow(kept: seq<nat>, j: nat, n: nat) {
    j < |kept| && kept[j] < n
  }

  /** The `j`-th kept attempt came before the `l`-th. */
  ghost predicate KeptBefore(kept: seq<nat>, j: nat, l: nat) {
    j < l < |kept| && kept[j] < kept[l]
  }

  /** An attempt is kept exactly when its context opened, its address was
      not refused and the form passed. */
  ghost predicate KeptExactly(c: CreationConfig, fixed: Option<string>, inputs: nat -> AttemptInputs, n: nat,
                              issued: seq<set<string>>, kept: seq<nat>)
    requires |issued| == n + 1
  {
    forall k :: 0 <= k < n ==> KeptIff(c, fixed, inputs, issued, kept, k)
  }

  /** Attempt `k` is in `kept` exactly when it was kept. */
  ghost predicate KeptIff(c: CreationConfig, fixed: Option<string>, inputs: nat -> AttemptInputs,
                          issued: seq<set<string>>, kept: seq<nat>, k: nat) {
    k < |issued|
    && (k in kept <==> inputs(k).contextOpened && !EmailRefused(c, fixed, issued[k], inputs(k))
                       && SignupStatus(inputs(k).signup) == EmailVerificationPending)
  }

  /** The record `r` of attempt `k` was built from an address issued
      against `before` and ran through the pipeline. */
  ghost predicate KeptRecord(c: CreationConfig, fixed: Option<string>, g: GmailView, inputs: nat -> AttemptInputs,
                             k: nat, before: set<string>, r: Record) {
    PipelineAccount(c, g, k + 1, inputs(k), r) && IssuedAddress(c, fixed, before, inputs(k), r.email)
  }

  /** `KeptRecord` for one configuration and run of inputs. */
  ghost function KeptRecordOf(c: CreationConfig, fixed: Option<string>, g: GmailView, inputs: nat -> AttemptInputs)
    : (nat, set<string>, Record) -> bool
  {
    (k: nat, before: set<string>, r: Record) => KeptRecord(c, fixed, g, inputs, k, before, r)
  }

  /** Every kept record satisfies `ok` for its attempt and the addresses
      issued before it. */
  ghost predicate KeptAccounts(ok: (nat, set<string>, Record) -> bool, issued: seq<set<string>>,
                               kept: seq<nat>, recs: seq<Record>) {
    |kept| == |recs| && forall j :: 0 <= j < |kept| ==> KeptAt(ok, issued, kept, recs, j)
  }

  /** The `j`-th kept record satisfies `ok`. */
  ghost predicate KeptAt(ok: (nat, set<string>, Record) -> bool, issued: seq<set<string>>,
                         kept: seq<nat>, recs: seq<Record>, j: nat) {
    j < |kept| && j < |recs| && kept[j] < |issued| && ok(kept[j], issued[kept[j]], recs[j])
  }

  /** Each attempt issues at most one address, and none while the address
      is fixed. */
  ghost predicate IssuesOneAtATime(fixed: Option<string>, n: nat, issued: seq<set<string>>)
    requires |issued| == n + 1
  {
    forall k :: 0 <= k < n ==> IssuesOne(fixed, issued, k)
  }

  /** Attempt `k` issued at most one address, and none while the address
      is fixed. */
  ghost predicate IssuesOne(fixed: Option<string>, issued: seq<set<string>>, k: nat) {
    k + 1 < |issued|
    && issued[k] <= issued[k + 1] && |issued[k + 1]| <= |issued[k]| + 1
    && (fixed.Some? ==> issued[k + 1] == issued[k])
  }

  /** Attempt `k` opened its browser context. */
  ghost predicate OpenedAt(inputs: nat -> AttemptInputs, k: nat) {
    inputs(k).contextOpened
  }

  /** One more attempt that opened its context extends the opened prefix. */
  lemma OpenedStep(inputs: nat -> AttemptInputs, i: nat)
    requires forall k :: 0 <= k < i ==> OpenedAt(inputs, k)
    requires inputs(i).contextOpened
    ensures forall k :: 0 <= k < i + 1 ==> OpenedAt(inputs, k)
  {
  }

  /** The attempts before the last one opened their context, and so did
      the last one unless it raised. */
  lemma OpenedBefore(inputs: nat -> AttemptInputs, opens: int, attempts: nat, raised: bool)
    requires forall k :: 0 <= k < opens ==> OpenedAt(inputs, k)
    requires opens == (if raised then attempts - 1 else attempts)
    ensures forall k :: 0 <= k < attempts - 1 ==> inputs(k).contextOpened
    ensures !raised ==> forall k :: 0 <= k < attempts ==> inputs(k).contextOpened
  {
    forall k | 0 <= k < opens ensures inputs(k).contextOpened {
      assert OpenedAt(inputs, k);
    }
  }

  /** One attempt of the loop, whether it raised or not, extends the trace
      and records at most one more address. */
  lemma AttemptStep(c: CreationConfig, fixed: Option<string>, g: GmailView, inputs: nat -> AttemptInputs, n: nat,
                    issued: seq<set<string>>, kept: seq<nat>, recs: seq<Record>,
                    before: set<string>, used: set<string>, r: Record, raised: bool, refused: bool)
    requires BatchTrace(c, fixed, g, inputs, n, issued, kept, recs)
    requires issued[n] == before
    requires raised <==> !inputs(n).contextOpened
    requires raised ==> !refused
    requires !raised ==> (refused <==> EmailRefused(c, fixed, before, inputs(n)))
    requires !raised && !refused ==> IssuedAddress(c, fixed, before, inputs(n), r.email)
    requires raised || refused || fixed.Some? ==> used == before
    requires !raised && !refused && fixed.None? ==> used == before + {r.email}
    requires !raised && !refused ==> PipelineAccount(c, g, n + 1, inputs(n), r)
    ensures |used| <= |before| + 1
    ensures var keep := !raised && !refused && SignupStatus(inputs(n).signup) == EmailVerificationPending;
      BatchTrace(c, fixed, g, inputs, n + 1, issued + [used],
                 if keep then kept + [n] else kept, if keep then recs + [r] else recs)
  {
    assert |before + {r.email}| <= |before| + 1;
    if raised {
      BatchRaised(c, fixed, g, inputs, n, issued, kept, recs);
    } else {
      BatchStep(c, fixed, g, inputs, n, issued, kept, recs, before, used, r, r.email, refused);
    }
  }

  /** An attempt that did not raise extends the trace. */
  lemma BatchStep(c: CreationConfig, fixed: Option<string>, g: GmailView, inputs: nat -> AttemptInputs, n: nat,
                  issued: seq<set<string>>, kept: seq<nat>, recs: seq<Record>,
                  before: set<string>, used: set<string>, r: Record, email: string, refused: bool)
    requires BatchTrace(c, fixed, g, inputs, n, issued, kept, recs)
    requires issued[n] == before && inputs(n).contextOpened && r.email == email
    requires refused <==> EmailRefused(c, fixed, before, inputs(n))
    requires !refused ==> IssuedAddress(c, fixed, before, inputs(n), email)
    requires !refused ==> PipelineAccount(c, g, n + 1, inputs(n), r)
    requires refused || fixed.Some? ==> used == before
    requires !refused && fixed.None? ==> used == before + {email}
    ensures var keep := !refused && SignupStatus(inputs(n).signup) == EmailVerificationPending;
      BatchTrace(c, fixed, g, inputs, n + 1, issued + [used],
                 if keep then kept + [n] else kept, if keep then recs + [r] else recs)
  {
    var keep := !refused && SignupStatus(inputs(n).signup) == EmailVerificationPending;
    var added := if keep then [r] else [];
    ShapeStep(n, issued, kept, recs, used, r, keep);
    KeptExactlyStep(c, fixed, inputs, n, issued, kept, used, keep);
    assert keep ==> KeptRecordOf(c, fixed, g, inputs)(n, issued[n], added[0]);
    KeptAccountsStep(KeptRecordOf(c, fixed, g, inputs), n, issued, kept, recs, used, added);
    assert recs + added == if keep then recs + [r] else recs;
    assert |before + {email}| <= |before| + 1;
    IssuesStep(fixed, n, issued, used);
  }

  /** One more attempt keeps `TraceShape`. */
  lemma ShapeStep(n: nat, issued: seq<set<string>>, kept: seq<nat>, recs: seq<Record>,
                  used: set<string>, r: Record, keep: bool)
    requires TraceShape(n, issued, kept, recs)
    ensures TraceShape(n + 1, issued + [used], if keep then kept + [n] else kept,
                       if keep then recs + [r] else recs)
  {
    if keep {
      var kept' := kept + [n];
      forall j | 0 <= j < |kept'|
        ensures kept'[j] < n + 1
      {
        if j < |kept| {
          assert KeptBelow(kept, j, n) && kept'[j] == kept[j];
        }
      }
      forall j, l | 0 <= j < l < |kept'|
        ensures KeptBefore(kept', j, l)
      {
        assert KeptBelow(kept, j, n) && kept'[j] == kept[j];
        if l < |kept| {
          assert KeptBefore(kept, j, l) && kept'[l] == kept[l];
        }
      }
    } else {
      forall j | 0 <= j < |kept|
        ensures kept[j] < n + 1
      {
        assert KeptBelow(kept, j, n);
      }
    }
  }

  /** One more attempt keeps `KeptExactly`. */
  lemma KeptExactlyStep(c: CreationConfig, fixed: Option<string>, inputs: nat -> AttemptInputs, n: nat,
                        issued: seq<set<string>>, kept: seq<nat>, used: set<string>, keep: bool)
    requires |issued| == n + 1 && (forall j :: 0 <= j < |kept| ==> KeptBelow(kept, j, n))
    requires KeptExactly(c, fixed, inputs, n, issued, kept)
    requires keep <==> inputs(n).contextOpened && !EmailRefused(c, fixed, issued[n], inputs(n))
                       && SignupStatus(inputs(n).signup) == EmailVerificationPending
    ensures KeptExactly(c, fixed, inputs, n + 1, issued + [used], if keep then kept + [n] else kept)
  {
    var issued', kept' := issued + [used], if keep then kept + [n] else kept;
    forall k | 0 <= k < n + 1
      ensures KeptIff(c, fixed, inputs, issued', kept', k)
    {
      assert issued'[k] == issued[k];
      if k < n {
        assert KeptIff(c, fixed, inputs, issued, kept, k);
        assert k in kept' <==> k in kept;
      } else if n in kept {
        var j :| 0 <= j < |kept| && kept[j] == n;
        assert KeptBelow(kept, j, n);
      }
    }
  }

  /** One more attempt keeps `KeptAccounts`. */
  lemma KeptAccountsStep(ok: (nat, set<string>, Record) -> bool, n: nat, issued: seq<set<string>>,
                         kept: seq<nat>, recs: seq<Record>, used: set<string>, added: seq<Record>)
    requires |issued| == n + 1 && KeptAccounts(ok, issued, kept, recs)
    requires |added| <= 1 && (|added| == 1 ==> ok(n, issued[n], added[0]))
    ensures KeptAccounts(ok, issued + [used], if |added| == 1 then kept + [n] else kept, recs + added)
  {
    var issued', kept', recs' := issued + [used], if |added| == 1 then kept + [n] else kept, recs + added;
    forall j | 0 <= j < |kept'|
      ensures KeptAt(ok, issued', kept', recs', j)
    {
      if j < |kept| {
        assert KeptAt(ok, issued, kept, recs, j);
        assert kept'[j] == kept[j] && recs'[j] == recs[j] && issued'[kept[j]] == issued[kept[j]];
      } else {
        assert kept'[j] == n && recs'[j] == added[0] && issued'[n] == issued[n];
      }
    }
  }

  /** One more attempt keeps `IssuesOneAtATime`. */
  lemma IssuesStep(fixed: Option<string>, n: nat, issued: seq<set<string>>, used: set<string>)
    requires |issued| == n + 1 && IssuesOneAtATime(fixed, n, issued)
    requires issued[n] <= used && |used| <= |issued[n]| + 1 && (fixed.Some? ==> used == issued[n])
    ensures IssuesOneAtATime(fixed, n + 1, issued + [used])
  {
    var issued' := issued + [used];
    forall k | 0 <= k < n + 1
      ensures IssuesOne(fixed, issued', k)
    {
      assert issued'[k] == issued[k] && issued'[k + 1] == (if k < n then issued[k + 1] else used);
      if k < n {
        assert IssuesOne(fixed, issued, k);
      }
    }
  }

  /** No more accounts are kept than attempts were made. */
  lemma {:induction false} KeptAtMost(n: nat, issued: seq<set<string>>, kept: seq<nat>, recs: seq<Record>)
    requires TraceShape(n, issued, kept, recs)
    ensures |recs| <= n
    decreases n
  {
    if |kept| > 0 {
      var m := kept[|kept| - 1];
      var kept0, recs0 := kept[..|kept| - 1], recs[..|recs| - 1];
      assert KeptBelow(kept, |kept| - 1, n);
      forall j | 0 <= j < |kept0|
        ensures KeptBelow(kept0, j, m)
      {
        assert KeptBefore(kept, j, |kept| - 1) && kept0[j] == kept[j];
      }
      forall j, l | 0 <= j < l < |kept0|
        ensures KeptBefore(kept0, j, l)
      {
        assert KeptBefore(kept, j, l) && kept0[j] == kept[j] && kept0[l] == kept[l];
      }
      KeptAtMost(m, issued[..m + 1], kept0, recs0);
    }
  }

  /** An attempt that raised extends the trace and keeps nothing. */
  lemma BatchRaised(c: CreationConfig, fixed: Option<string>, g: GmailView, inputs: nat -> AttemptInputs, n: nat,
                    issued: seq<set<string>>, kept: seq<nat>, recs: seq<Record>)
    requires BatchTrace(c, fixed, g, inputs, n, issued, kept, recs)
    requires !inputs(n).contextOpened
    ensures BatchTrace(c, fixed, g, inputs, n + 1, issued + [issued[n]], kept, recs)
  {
    ShapeStep(n, issued, kept, recs, issued[n], Record("", "", "", None, "", "", "", ""), false);
    KeptExactlyStep(c, fixed, inputs, n, issued, kept, issued[n], false);
    IssuesStep(fixed, n, issued, issued[n]);
    KeptAccountsStep(KeptRecordOf(c, fixed, g, inputs), n, issued, kept, recs, issued[n], []);
    assert recs + [] == recs;
  }

  /** The fields the source's statistics dictionary holds. */
  datatype CreatorStatistics = CreatorStatistics(
    total: nat, success: nat, failed: nat, pending: int, successRate: Ratio, environment: string)

  /** The accounts that pass `is_completed`: those at the completed
      positions of the list, in list order. */
  function CompletedAccounts(accounts: seq<AccountInfo>): (out: seq<AccountInfo>)
    reads set a: AccountInfo | a in accounts
    ensures forall a :: a in out ==> a in accounts && a.IsCompleted()
    ensures |out| == CountCompleted(Snapshot(accounts))
  {
    if accounts == [] then []
    else
      var init := accounts[..|accounts| - 1];
      var last := accounts[|accounts| - 1];
      assert Snapshot(accounts)[..|accounts| - 1] == Snapshot(init);
      CompletedAccounts(init) + (if last.IsCompleted() then [last] else [])
  }

  /** The accounts that pass `is_failed`: those at the failed positions of
      the list, in list order. */
  function FailedAccounts(accounts: seq<AccountInfo>): (out: seq<AccountInfo>)
    reads set a: AccountInfo | a in accounts
    ensures forall a :: a in out ==> a in accounts && a.IsFailed()
    ensures |out| == CountFailed(Snapshot(accounts))
  {
    if accounts == [] then []
    else
      var init := accounts[..|accounts| - 1];
      var last := accounts[|accounts| - 1];
      assert Snapshot(accounts)[..|accounts| - 1] == Snapshot(init);
      FailedAccounts(init) + (if last.IsFailed() then [last] else [])
  }

  /** `CompletedAccounts` keeps the accounts at the completed positions of the
      list, in list order. */
  lemma {:induction false} CompletedOrder(accounts: seq<AccountInfo>)
    ensures var ix := PassingIndices(Snapshot(accounts), IsCompletedValue);
      |CompletedAccounts(accounts)| == |ix|
      && forall k :: 0 <= k < |ix| ==> CompletedAccounts(accounts)[k] == accounts[ix[k]]
  {
    if accounts != [] {
      var n := |accounts| - 1;
      var init := accounts[..n];
      CompletedOrder(init);
      assert Snapshot(accounts)[..n] == Snapshot(init);
    }
  }

  /** `FailedAccounts` keeps the accounts at the failed positions of the
      list, in list order. */
  lemma {:induction false} FailedOrder(accounts: seq<AccountInfo>)
    ensures var ix := PassingIndices(Snapshot(accounts), IsFailedValue);
      |FailedAccounts(accounts)| == |ix|
      && forall k :: 0 <= k < |ix| ==> FailedAccounts(accounts)[k] == accounts[ix[k]]
  {
    if accounts != [] {
      var n := |accounts| - 1;
      var init := accounts[..n];
      FailedOrder(init);
      assert Snapshot(accounts)[..n] == Snapshot(init);
    }
  }

  /** The completed filter whole: the accounts at the completed positions in list
      order, every completed account among them, and as records the completed
      records of the list. */
  lemma CompletedAccountsExact(accounts: seq<AccountInfo>)
    ensures var out, ix := CompletedAccounts(accounts), PassingIndices(Snapshot(accounts), IsCompletedValue);
      (|out| == |ix| && forall k :: 0 <= k < |ix| ==> out[k] == accounts[ix[k]])
      && (forall i :: 0 <= i < |accounts| && accounts[i].IsCompleted() ==> accounts[i] in out)
      && Snapshot(out) == CompletedRecords(Snapshot(accounts))
  {
    CompletedOrder(accounts);
    SelectedSnapshot(accounts, CompletedAccounts(accounts), IsCompletedValue, CompletedRecords(Snapshot(accounts)));
    FilterKeepsPassing(accounts, CompletedAccounts(accounts), IsCompletedValue);
  }

  /** The failed filter whole: the accounts at the failed positions in list
      order, every failed account among them, and as records the failed
      records of the list. */
  lemma FailedAccountsExact(accounts: seq<AccountInfo>)
    ensures var out, ix := FailedAccounts(accounts), PassingIndices(Snapshot(accounts), IsFailedValue);
      (|out| == |ix| && forall k :: 0 <= k < |ix| ==> out[k] == accounts[ix[k]])
      && (forall i :: 0 <= i < |accounts| && accounts[i].IsFailed() ==> accounts[i] in out)
      && Snapshot(out) == FailedRecords(Snapshot(accounts))
  {
    FailedOrder(accounts);
    SelectedSnapshot(accounts, FailedAccounts(accounts), IsFailedValue, FailedRecords(Snapshot(accounts)));
    FilterKeepsPassing(accounts, FailedAccounts(accounts), IsFailedValue);
  }

  /** Accounts and records taken at the same positions of a list agree. */
  lemma SelectedSnapshot(accounts: seq<AccountInfo>, out: seq<AccountInfo>, p: string -> bool, recs: seq<Record>)
    requires var ix := PassingIndices(Snapshot(accounts), p);
      |out| == |ix| && forall k :: 0 <= k < |ix| ==> out[k] == accounts[ix[k]]
    requires var ix := PassingIndices(Snapshot(accounts), p);
      |recs| == |ix| && forall k :: 0 <= k < |ix| ==> recs[k] == Snapshot(accounts)[ix[k]]
    ensures Snapshot(out) == recs
  {
    var ix := PassingIndices(Snapshot(accounts), p);
    forall k | 0 <= k < |out| ensures Snapshot(out)[k] == recs[k] {
      assert out[k] == accounts[ix[k]];
      SnapshotAt(out, k);
      SnapshotAt(accounts, ix[k]);
    }
  }

  /** An account filter keeps every account whose position passes. */
  lemma FilterKeepsPassing(accounts: seq<AccountInfo>, out: seq<AccountInfo>, p: string -> bool)
    requires var ix := PassingIndices(Snapshot(accounts), p);
      |out| == |ix| && forall k :: 0 <= k < |ix| ==> out[k] == accounts[ix[k]]
    ensures forall i :: 0 <= i < |accounts| && p(accounts[i].status) ==> accounts[i] in out
  {
    var ix := PassingIndices(Snapshot(accounts), p);
    PassingIndicesExact(Snapshot(accounts), p);
    forall i | 0 <= i < |accounts| && p(accounts[i].status) ensures accounts[i] in out {
      SnapshotAt(accounts, i);
      assert Snapshot(accounts)[i].status == accounts[i].status;
      var k :| 0 <= k < |ix| && ix[k] == i;
      assert out[k] == accounts[i];
    }
  }

  class WeverseAccountCreator {
    const config: CreationConfig
    const generator: EmailGenerator
    var gmail: GmailService?
    var accounts: seq<AccountInfo>

    /** The Gmail service exists only when the configuration names a
        Gmail account; no Slack service is modelled. */
    constructor (config: CreationConfig)
      ensures this.config == config && accounts == []
      ensures fresh(generator) && generator.usedEmails == {} && generator.fixedEmail == None
      ensures (gmail != null <==> config.hasGmailAccount) && (gmail != null ==> fresh(gmail) && !gmail.initialized)
    {
      this.config := config;
      accounts := [];
      generator := new EmailGenerator();
      if config.hasGmailAccount {
        gmail := new GmailService();
      } else {
        gmail := null;
      }
    }

    function GmailState(): GmailView
      reads this, gmail
    {
      if gmail == null then NoGmail else GmailAt(gmail.initialized)
    }

    /** `initialize_services`: a service that fails to initialise is
        dropped; the result is always true. */
    method InitializeServices(outcome: Connection) returns (success: bool)
      modifies this, gmail
      ensures success
      ensures old(gmail) == null ==> gmail == null
      ensures old(gmail) != null ==>
        (outcome == Connected ==> gmail == old(gmail) && gmail.initialized)
        && (outcome != Connected ==> gmail == null)
      ensures accounts == old(accounts)
    {
      if gmail != null {
        var gmailInit := gmail.Initialize(outcome);
        if !gmailInit {
          gmail := null;
        }
      }
      return true;
    }

    /** `_process_gmail_verification`: true whenever a link was found. */
    method ProcessGmailVerification(att: AttemptInputs) returns (verified: bool)
      ensures verified <==> VerificationStatus(GmailState(), att) == EmailVerified
    {
      if gmail == null {
        return false;
      }
      var link, attempt, slept := gmail.FindVerificationEmail(DEFAULT_WAIT_MINUTES, att.mailPasses, att.readers);
      verified := Truthy(link);
    }

    /** `_handle_email_verification`. */
    method HandleEmailVerification(account: AccountInfo, att: AttemptInputs)
      requires account.Valid()
      modifies account
      ensures account.Valid()
      ensures account.ToDict() ==
        old(account.ToDict()).(status := VerificationStatus(GmailState(), att).Value(), updatedAt := att.now)
    {
      if gmail != null {
        var verificationSuccess := ProcessGmailVerification(att);
        if verificationSuccess {
          account.UpdateStatus(EmailVerified, att.now);
        } else {
          account.UpdateStatus(EmailVerificationFailed, att.now);
        }
      } else {
        account.UpdateStatus(EmailVerificationPending, att.now);
      }
    }

    /** `_login_and_extract_wid`. */
    method LoginAndExtractWid(account: AccountInfo, att: AttemptInputs, isMultiAccount: bool)
      requires account.Valid()
      modifies account
      ensures account.Valid()
      ensures account.ToDict() == LoginStage(old(account.ToDict()), att, GmailState())
    {
      var loginSuccess, loggedOut := Weverse.LoginAndExtractWid(att.login, account, isMultiAccount, att.now);
      if loginSuccess {
        return;
      }
      if att.recheck == AbnormalShown {
        if gmail != null {
          var ok, out := HandleAdditionalVerificationAndExtractWid(
            att.challenge, account, gmail, att.latestListing, att.readers.decode, isMultiAccount, att.now);
          if !ok {
            account.UpdateStatus(WidExtractionFailed, att.now);
          }
        } else {
          account.UpdateStatus(EmailVerificationFailed, att.now);
        }
      } else {
        account.UpdateStatus(WidExtractionFailed, att.now);
      }
    }

    /** `create_single_account`. A context that cannot be opened raises
        (`account` is null). A refused email gives the "unknown" account;
        a failed signup gives the account as the form left it; neither is
        kept. Otherwise the account runs through the pipeline and is
        appended. The nickname carries the index only in a batch. */
    method CreateSingleAccount(index: int, att: AttemptInputs)
      returns (account: AccountInfo?, raised: bool, refused: bool)
      requires ValidInputs(att, config)
      requires generator.fixedEmail.None? && config.environment == "qa" ==>
        QaTerminates(generator.usedEmails, att.entropy.qaPrefixes)
      modifies this, generator
      ensures gmail == old(gmail) && generator.fixedEmail == old(generator.fixedEmail)
      ensures raised <==> !att.contextOpened
      ensures raised ==> account == null && !refused
      ensures !raised ==> account != null && fresh(account) && account.Valid()
      ensures !raised ==>
        (refused <==> EmailRefused(config, generator.fixedEmail, old(generator.usedEmails), att))
      ensures !raised && !refused ==>
        IssuedAddress(config, generator.fixedEmail, old(generator.usedEmails), att, account.email)
      ensures raised || refused || generator.fixedEmail.Some? ==>
        generator.usedEmails == old(generator.usedEmails)
      ensures !raised && !refused && generator.fixedEmail.None? ==>
        generator.usedEmails == old(generator.usedEmails) + {account.email}
      ensures !raised && generator.fixedEmail.Some? ==> account.email == generator.fixedEmail.value
      ensures raised || refused ==> accounts == old(accounts)
      ensures !raised && refused ==>
        account.ToDict() == Record("unknown", "unknown", "unknown", None, CreationFailed.Value(),
                                   att.now, att.now, config.environment)
      ensures !raised && !refused ==>
        PipelineAccount(config, GmailState(), index, att, account.ToDict())
        && (SignupStatus(att.signup) == EmailVerificationPending ==> accounts == old(accounts) + [account])
        && (SignupStatus(att.signup) != EmailVerificationPending ==> accounts == old(accounts))
    {
      refused := false;
      if !att.contextOpened {
        return null, true, false;
      }
      raised := false;
      var email := NextEmail(att);
      if email.Failure? {
        account := new AccountInfo("unknown", "unknown", "unknown", config.environment, att.now);
        account.UpdateStatus(CreationFailed, att.now);
        return account, false, true;
      }
      var password := GeneratePassword(config.customPassword, att.passwordDraw);
      var nickname := GenerateNickname(config.customNickname,
                                       if config.count > 1 then Some(index) else None, att.nicknameSuffix);
      account := new AccountInfo(email.value, password, nickname, config.environment, att.now);
      RunPipeline(account, att);
    }

    /** The `generate_email` call of `create_single_account`: whether it
        raised, and which address it recorded. */
    method NextEmail(att: AttemptInputs) returns (email: Result<string, EmailError>)
      requires ValidInputs(att, config)
      requires generator.fixedEmail.None? && config.environment == "qa" ==>
        QaTerminates(generator.usedEmails, att.entropy.qaPrefixes)
      modifies generator
      ensures generator.fixedEmail == old(generator.fixedEmail)
      ensures email.Failure? <==> EmailRefused(config, generator.fixedEmail, old(generator.usedEmails), att)
      ensures email.Success? ==>
        IssuedAddress(config, generator.fixedEmail, old(generator.usedEmails), att, email.value)
      ensures email.Failure? || generator.fixedEmail.Some? ==> generator.usedEmails == old(generator.usedEmails)
      ensures email.Success? && generator.fixedEmail.None? ==>
        generator.usedEmails == old(generator.usedEmails) + {email.value}
      ensures generator.fixedEmail.Some? ==> email == Success(generator.fixedEmail.value)
    {
      email := generator.GenerateEmail(config.environment, config.baseEmail, att.entropy);
    }

    /** Steps 1 to 4 of `create_single_account`, once the account exists. */
    method RunPipeline(account: AccountInfo, att: AttemptInputs)
      requires account.Valid() && account.wid == None
      modifies this, account
      ensures account.Valid() && gmail == old(gmail)
      ensures account.email == old(account.email) && account.password == old(account.password)
        && account.nickname == old(account.nickname)
      ensures account.ToDict() == Pipeline(old(account.ToDict()), att, GmailState())
      ensures SignupStatus(att.signup) == EmailVerificationPending ==> accounts == old(accounts) + [account]
      ensures SignupStatus(att.signup) != EmailVerificationPending ==> accounts == old(accounts)
    {
      var signupSuccess := FillSignupForm(att.signup, account, att.now);
      if !signupSuccess {
        PipelineOutcomes(old(account.ToDict()), att, GmailState());
        return;
      }
      HandleEmailVerification(account, att);
      if account.status == EmailVerified.Value() {
        var isMultiAccount := config.count > 1;
        LoginAndExtractWid(account, att, isMultiAccount);
      } else {
        ValueInjective(VerificationStatus(GmailState(), att), EmailVerified);
      }
      accounts := accounts + [account];
      PipelineOutcomes(old(account.ToDict()), att, GmailState());
    }

    /** `create_multiple_accounts`: the services are initialised first
        (`connection` is how the Gmail connection goes), then `count`
        attempts, numbered from one, with the delay between consecutive
        ones; an attempt that raises ends the batch. */
    method CreateMultipleAccounts(connection: Connection, inputs: nat -> AttemptInputs)
      returns (attempts: nat, sleeps: nat, raised: bool,
               ghost issued: seq<set<string>>, ghost kept: seq<nat>, ghost made: seq<AccountInfo>)
      requires forall k: nat :: ValidInputs(inputs(k), config)
      requires config.environment == "qa" && generator.fixedEmail.None? ==>
        forall k: nat, used: set<string> :: k < config.count && |used| <= |generator.usedEmails| + k ==>
          QaTerminates(used, inputs(k).entropy.qaPrefixes)
      modifies this, generator, gmail
      ensures old(gmail) == null ==> gmail == null
      ensures old(gmail) != null ==>
        (connection == Connected ==> gmail == old(gmail) && gmail.initialized)
        && (connection != Connected ==> gmail == null)
      ensures attempts <= (if config.count < 0 then 0 else config.count)
      ensures raised ==> attempts >= 1 && !inputs(attempts - 1).contextOpened
      ensures !raised ==> attempts == (if config.count < 0 then 0 else config.count)
      ensures forall k :: 0 <= k < attempts - 1 ==> inputs(k).contextOpened
      ensures !raised ==> forall k :: 0 <= k < attempts ==> inputs(k).contextOpened
      ensures sleeps == (if config.delay > 0 && attempts > 0 then attempts - 1 else 0)
      ensures old(accounts) <= accounts && |accounts| <= |old(accounts)| + attempts
      ensures BatchTrace(config, generator.fixedEmail, GmailState(), inputs, attempts, issued, kept, Snapshot(made))
      ensures issued[0] == old(generator.usedEmails) && issued[attempts] == generator.usedEmails
      ensures accounts == old(accounts) + made
    {
      var ok := InitializeServices(connection);
      assert forall k: nat :: ValidInputsAt(inputs, config, k);
      attempts, sleeps, raised, issued, kept, made := RunAttempts(inputs);
    }

    /** `CreateSingleAccount(n + 1, att)` with its outcome stated on values:
        `r` is the record of the account built, and the accounts `made`
        before it keep their records. */
    method AttemptRecord(n: nat, att: AttemptInputs, ghost fixed: Option<string>, ghost g: GmailView,
                         ghost made: seq<AccountInfo>, ghost recs: seq<Record>)
      returns (account: AccountInfo?, raised: bool, refused: bool, ghost r: Record)
      requires ValidInputs(att, config)
      requires fixed.None? && config.environment == "qa" ==>
        QaTerminates(generator.usedEmails, att.entropy.qaPrefixes)
      requires fixed == generator.fixedEmail && g == GmailState() && recs == Snapshot(made)
      modifies this, generator
      ensures gmail == old(gmail) && fixed == generator.fixedEmail && g == GmailState() && recs == Snapshot(made)
      ensures raised <==> !att.contextOpened
      ensures raised ==> !refused
      ensures !raised ==> (refused <==> EmailRefused(config, fixed, old(generator.usedEmails), att))
      ensures !raised && !refused ==> IssuedAddress(config, fixed, old(generator.usedEmails), att, r.email)
      ensures raised || refused || fixed.Some? ==> generator.usedEmails == old(generator.usedEmails)
      ensures !raised && !refused && fixed.None? ==> generator.usedEmails == old(generator.usedEmails) + {r.email}
      ensures !raised && !refused ==> PipelineAccount(config, g, n + 1, att, r)
      ensures var keep := !raised && !refused && SignupStatus(att.signup) == EmailVerificationPending;
        (keep ==> account != null && r == account.ToDict() && accounts == old(accounts) + [account])
        && (!keep ==> accounts == old(accounts))
    {
      account, raised, refused := CreateSingleAccount(n + 1, att);
      r := if raised then Record("", "", "", None, "", "", "", "") else account.ToDict();
    }

    /** One attempt of a batch, `CreateSingleAccount(n + 1, inputs(n))`,
        and the trace it extends. */
    method TracedAttempt(inputs: nat -> AttemptInputs, ghost used0: nat, ghost accounts0: seq<AccountInfo>,
                         n: nat, ghost fixed: Option<string>, ghost g: GmailView,
                         ghost issued: seq<set<string>>, ghost kept: seq<nat>,
                         ghost made: seq<AccountInfo>, ghost recs: seq<Record>)
      returns (raised: bool, ghost issued': seq<set<string>>, ghost kept': seq<nat>,
               ghost made': seq<AccountInfo>, ghost recs': seq<Record>)
      requires RunInputs(inputs, config, fixed, used0)
      requires fixed == generator.fixedEmail && g == GmailState() && recs == Snapshot(made)
      requires n < config.count && |generator.usedEmails| <= used0 + n
      requires BatchTrace(config, fixed, g, inputs, n, issued, kept, recs)
      requires issued[n] == generator.usedEmails && accounts == accounts0 + made
      modifies this, generator
      ensures gmail == old(gmail) && fixed == generator.fixedEmail && g == GmailState()
      ensures recs' == Snapshot(made') && accounts == accounts0 + made'
      ensures raised <==> !inputs(n).contextOpened
      ensures BatchTrace(config, fixed, g, inputs, n + 1, issued', kept', recs')
      ensures issued'[0] == issued[0] && issued'[n + 1] == generator.usedEmails
      ensures |generator.usedEmails| <= used0 + n + 1
    {
      assert ValidInputsAt(inputs, config, n);
      var account, refused;
      ghost var r;
      account, raised, refused, r := AttemptRecord(n, inputs(n), fixed, g, made, recs);
      AttemptStep(config, fixed, g, inputs, n, issued, kept, recs,
                  old(generator.usedEmails), generator.usedEmails, r, raised, refused);
      ghost var keep := !raised && !refused && SignupStatus(inputs(n).signup) == EmailVerificationPending;
      issued', kept', recs' := issued + [generator.usedEmails], if keep then kept + [n] else kept,
                               if keep then recs + [r] else recs;
      made' := made;
      if keep {
        var a: AccountInfo := account;
        made' := made + [a];
        SnapshotAppend(made, a);
        AppendAfter(accounts0, made, a);
      }
    }

    /** The attempt loop of `create_multiple_accounts`. */
    method RunAttempts(inputs: nat -> AttemptInputs)
      returns (attempts: nat, sleeps: nat, raised: bool,
               ghost issued: seq<set<string>>, ghost kept: seq<nat>, ghost made: seq<AccountInfo>)
      requires RunInputs(inputs, config, generator.fixedEmail, |generator.usedEmails|)
      modifies this, generator
      ensures gmail == old(gmail)
      ensures attempts <= (if config.count < 0 then 0 else config.count)
      ensures raised ==> attempts >= 1 && !inputs(attempts - 1).contextOpened
      ensures !raised ==> attempts == (if config.count < 0 then 0 else config.count)
      ensures forall k :: 0 <= k < attempts - 1 ==> inputs(k).contextOpened
      ensures !raised ==> forall k :: 0 <= k < attempts ==> inputs(k).contextOpened
      ensures sleeps == (if config.delay > 0 && attempts > 0 then attempts - 1 else 0)
      ensures old(accounts) <= accounts && |accounts| <= |old(accounts)| + attempts
      ensures BatchTrace(config, generator.fixedEmail, GmailState(), inputs, attempts, issued, kept, Snapshot(made))
      ensures issued[0] == old(generator.usedEmails) && issued[attempts] == generator.usedEmails
      ensures accounts == old(accounts) + made
    {
      attempts, sleeps, raised := 0, 0, false;
      ghost var used0 := |generator.usedEmails|;
      issued, kept, made := [generator.usedEmails], [], [];
      ghost var opens := 0;
      ghost var fixed, g, recs := generator.fixedEmail, GmailState(), [];
      while attempts < config.count && !raised
        invariant config.count >= 0 ==> attempts <= config.count
        invariant config.count < 0 ==> attempts == 0
        invariant raised ==> attempts >= 1 && !inputs(attempts - 1).contextOpened
        invariant opens == (if raised then attempts - 1 else attempts)
        invariant forall k :: 0 <= k < opens ==> OpenedAt(inputs, k)
        invariant sleeps == (if config.delay > 0 && attempts > 0 then
                               (if attempts < config.count && !raised then attempts else attempts - 1) else 0)
        invariant gmail == old(gmail) && fixed == generator.fixedEmail && g == GmailState() && recs == Snapshot(made)
        invariant |generator.usedEmails| <= used0 + attempts
        invariant BatchTrace(config, fixed, g, inputs, attempts, issued, kept, recs)
        invariant issued[0] == old(generator.usedEmails) && issued[attempts] == generator.usedEmails
        invariant accounts == old(accounts) + made
      {
        raised, issued, kept, made, recs :=
          TracedAttempt(inputs, used0, old(accounts), attempts, fixed, g, issued, kept, made, recs);
        if !raised {
          OpenedStep(inputs, opens);
          opens := opens + 1;
          if attempts < config.count - 1 && config.delay > 0 {
            sleeps := sleeps + 1;
          }
        }
        attempts := attempts + 1;
      }
      KeptAtMost(attempts, issued, kept, recs);
      AppendBound(old(accounts), made, attempts);
      OpenedBefore(inputs, opens, attempts, raised);
    }

    /** `get_successful_accounts`. */
    function GetSuccessfulAccounts(): (out: seq<AccountInfo>)
      reads this, set a: AccountInfo | a in accounts
      ensures forall a :: a in out ==> a in accounts && a.IsCompleted()
      ensures |out| == CountCompleted(Snapshot(accounts))
      ensures var ix := PassingIndices(Snapshot(accounts), IsCompletedValue);
        |out| == |ix| && forall k :: 0 <= k < |ix| ==> out[k] == accounts[ix[k]]
      ensures forall i :: 0 <= i < |accounts| && accounts[i].IsCompleted() ==> accounts[i] in out
      ensures Snapshot(out) == CompletedRecords(Snapshot(accounts))
    {
      CompletedAccountsExact(accounts);
      CompletedAccounts(accounts)
    }

    /** `get_failed_accounts`. */
    function GetFailedAccounts(): (out: seq<AccountInfo>)
      reads this, set a: AccountInfo | a in accounts
      ensures forall a :: a in out ==> a in accounts && a.IsFailed()
      ensures |out| == CountFailed(Snapshot(accounts))
      ensures var ix := PassingIndices(Snapshot(accounts), IsFailedValue);
        |out| == |ix| && forall k :: 0 <= k < |ix| ==> out[k] == accounts[ix[k]]
      ensures forall i :: 0 <= i < |accounts| && accounts[i].IsFailed() ==> accounts[i] in out
      ensures Snapshot(out) == FailedRecords(Snapshot(accounts))
    {
      FailedAccountsExact(accounts);
      FailedAccounts(accounts)
    }

    /** `get_statistics`: success and failure counts of the kept accounts,
        the rest pending (never negative), the rate zero for no accounts. */
    function GetStatistics(): (s: CreatorStatistics)
      reads this, set a: AccountInfo | a in accounts
      ensures s.total == |accounts|
      ensures s.success == CountCompleted(Snapshot(accounts))
      ensures s.failed == CountFailed(Snapshot(accounts))
      ensures s.pending == s.total - s.success - s.failed && s.pending >= 0
      ensures s.total == 0 ==> s.successRate == Ratio(0, 1)
      ensures s.total > 0 ==> s.successRate == Ratio(s.success * 100, s.total)
      ensures s.environment == config.environment
    {
      var total := |accounts|;
      var success := |GetSuccessfulAccounts()|;
      var failed := |GetFailedAccounts()|;
      CountsBounded(Snapshot(accounts));
      CreatorStatistics(total, success, failed, total - success - failed,
                        if total > 0 then Ratio(success * 100, total) else Ratio(0, 1),
                        config.environment)
    }

    /** `clear_accounts`: both the list and the issued addresses. */
    method ClearAccounts()
      modifies this, generator
      ensures accounts == [] && generator.usedEmails == {}
      ensures gmail == old(gmail) && generator.fixedEmail == old(generator.fixedEmail)
    {
      accounts := [];
      generator.ClearUsedEmails();
    }

    /** `add_existing_account`. */
    method AddExistingAccount(account: AccountInfo)
      modifies this
      ensures accounts == old(accounts) + [account] && gmail == old(gmail)
    {
      accounts := accounts + [account];
    }
  }
}
