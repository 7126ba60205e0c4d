/** The status machine of src/services/weverse_service.py: the four signup
    steps, the login with its challenge check, the WID wait on the my-page,
    the handler for user API responses, and the challenge path that enters
    the latest mailed code.

    Every page interaction is an input: what the signup page showed at each
    step, whether the login form could be filled, what the challenge check
    found, whether the my-page was reached, and which API responses the page
    listener handled before each of the twenty one-second checks. */
module Weverse {
  import opened Wrappers
  import opened Text
  import opened Account
  import opened Gmail

  // ---------------------------------------------------------------------
  // Signup form

  /** How the email step ended: the signup button appeared, or one of the
      three rejections (invalid format text, already-registered text,
      neither, which raises), or an earlier selector raised. */
  datatype EmailStepPage = SignupButtonShown | InvalidFormatShown | AlreadyRegisteredShown
                         | NoKnownError | EmailStepRaised

  /** The marketing popup after the terms: confirmed, confirmed by the
      fallback selector, or never there. */
  datatype Popup = PopupConfirmed | FallbackConfirmed | NoPopup

  datatype TermsPage = TermsPage(agreed: bool, popup: Popup)

  /** What the signup page did: `reached` is false when `goto` raised. */
  datatype SignupPage = SignupPage(
    reached: bool,
    email: EmailStepPage,
    passwordFilled: bool,
    nicknameFilled: bool,
    terms: TermsPage)

  /** `_fill_email_step`. */
  predicate EmailStepOk(e: EmailStepPage) { e == SignupButtonShown }

  /** `_fill_terms_step`: the popup is handled or skipped, never fatal. */
  predicate TermsStepOk(t: TermsPage) { t.agreed }

  /** The status `fill_signup_form` writes: the first failing step's, or
      pending verification when all four pass. */
  function SignupStatus(p: SignupPage): Status {
    if !p.reached then CreationFailed
    else if !EmailStepOk(p.email) then EmailStepFailed
    else if !p.passwordFilled then PasswordStepFailed
    else if !p.nicknameFilled then NicknameStepFailed
    else if !TermsStepOk(p.terms) then TermsStepFailed
    else EmailVerificationPending
  }

  /** The steps run in order and the first refusal decides; the email
      step's three rejections all give "email_step_failed", and the popup
      never changes the outcome. */
  lemma SignupOutcomes(p: SignupPage)
    ensures SignupStatus(p) == EmailVerificationPending <==>
      p.reached && p.email == SignupButtonShown && p.passwordFilled && p.nicknameFilled && p.terms.agreed
    ensures SignupStatus(p) == EmailStepFailed <==> p.reached && p.email != SignupButtonShown
    ensures SignupStatus(p) == PasswordStepFailed <==>
      p.reached && p.email == SignupButtonShown && !p.passwordFilled
    ensures SignupStatus(p) == NicknameStepFailed <==>
      p.reached && p.email == SignupButtonShown && p.passwordFilled && !p.nicknameFilled
    ensures SignupStatus(p) == TermsStepFailed <==>
      p.reached && p.email == SignupButtonShown && p.passwordFilled && p.nicknameFilled && !p.terms.agreed
    ensures SignupStatus(p) == CreationFailed <==> !p.reached
    ensures forall pop: Popup :: SignupStatus(p.(terms := p.terms.(popup := pop))) == SignupStatus(p)
  {
  }

  /** `fill_signup_form`: one status update, and true exactly when the form
      was completed. */
  method FillSignupForm(page: SignupPage, account: AccountInfo, now: Timestamp) returns (ok: bool)
    requires account.Valid()
    modifies account
    ensures account.Valid()
    ensures account.ToDict() == old(account.ToDict()).(status := SignupStatus(page).Value(), updatedAt := now)
    ensures ok <==> SignupStatus(page) == EmailVerificationPending
  {
    if !page.reached {
      account.UpdateStatus(CreationFailed, now);
      return false;
    }
    if !EmailStepOk(page.email) {
      account.UpdateStatus(EmailStepFailed, now);
      return false;
    }
    if !page.passwordFilled {
      account.UpdateStatus(PasswordStepFailed, now);
      return false;
    }
    if !page.nicknameFilled {
      account.UpdateStatus(NicknameStepFailed, now);
      return false;
    }
    if !TermsStepOk(page.terms) {
      account.UpdateStatus(TermsStepFailed, now);
      return false;
    }
    account.UpdateStatus(EmailVerificationPending, now);
    return true;
  }

  // ---------------------------------------------------------------------
  // API responses and the WID wait

  /** The parsed response text: a JSON object (its members' values written
      as strings) or text that does not parse. */
  datatype Json = JsonObject(members: map<string, string>) | Unparsable

  datatype ApiResponse = ApiResponse(url: string, httpStatus: int, body: Json)

  /** The listener's filter: one of the two user endpoints, answered 200. */
  predicate IsUserApi(r: ApiResponse) {
    (Contains(r.url, "users/v1.0/users/me") || Contains(r.url, "users/v1.0/users/account/me"))
    && r.httpStatus == 200
  }

  /** A response that makes `_extract_wid_from_response` call `set_wid`. */
  predicate CarriesWid(r: ApiResponse) {
    IsUserApi(r) && r.body.JsonObject? && "wid" in r.body.members
  }

  /** The WIDs the handled responses store, in order. */
  function WidValues(rs: seq<ApiResponse>): (ws: seq<string>)
    ensures |ws| <= |rs|
  {
    if rs == [] then []
    else
      var r := rs[|rs| - 1];
      WidValues(rs[..|rs| - 1]) + (if CarriesWid(r) then [r.body.members["wid"]] else [])
  }

  /** A run of responses stores no WID exactly when none of them carries
      one. */
  lemma {:induction false} NoWidValues(rs: seq<ApiResponse>)
    ensures WidValues(rs) == [] <==> forall i :: 0 <= i < |rs| ==> !CarriesWid(rs[i])
  {
    if rs != [] {
      var init := rs[..|rs| - 1];
      NoWidValues(init);
      assert forall i :: 0 <= i < |init| ==> init[i] == rs[i];
    }
  }

  /** The account after one response. */
  function HandleResponse(a: Record, r: ApiResponse, now: Timestamp): Record {
    if CarriesWid(r) then a.(wid := Some(r.body.members["wid"]), status := Completed.Value(), updatedAt := now)
    else a
  }

  /** The account after a run of responses, handled in order. */
  function HandleResponses(a: Record, rs: seq<ApiResponse>, now: Timestamp): Record {
    if rs == [] then a else HandleResponse(HandleResponses(a, rs[..|rs| - 1], now), rs[|rs| - 1], now)
  }

  /** A run of responses leaves the account untouched when none carries a
      WID, and otherwise leaves it holding the last WID with status
      "completed". */
  lemma {:induction false} HandledResponses(a: Record, rs: seq<ApiResponse>, now: Timestamp)
    ensures WidValues(rs) == [] ==> HandleResponses(a, rs, now) == a
    ensures WidValues(rs) != [] ==>
      HandleResponses(a, rs, now)
        == a.(wid := Some(WidValues(rs)[|WidValues(rs)| - 1]), status := Completed.Value(), updatedAt := now)
  {
    if rs != [] {
      HandledResponses(a, rs[..|rs| - 1], now);
    }
  }

  /** `_extract_wid_from_response`, with the listener's URL and status
      filter in front of it. */
  method ExtractWidFromResponse(r: ApiResponse, account: AccountInfo, now: Timestamp)
    requires account.Valid()
    modifies account
    ensures account.Valid()
    ensures account.ToDict() == HandleResponse(old(account.ToDict()), r, now)
  {
    if IsUserApi(r) {
      match r.body
      case Unparsable =>
      case JsonObject(members) =>
        if "wid" in members {
          account.SetWid(members["wid"], now);
        }
    }
  }

  /** The listener handling, in order, the responses that arrived during
      one second of the wait. */
  method HandleArrivals(rs: seq<ApiResponse>, account: AccountInfo, now: Timestamp)
    requires account.Valid()
    modifies account
    ensures account.Valid()
    ensures account.ToDict() == HandleResponses(old(account.ToDict()), rs, now)
  {
    var j := 0;
    while j < |rs|
      invariant 0 <= j <= |rs|
      invariant account.Valid()
      invariant account.ToDict() == HandleResponses(old(account.ToDict()), rs[..j], now)
    {
      assert rs[..j + 1][..j] == rs[..j];
      ExtractWidFromResponse(rs[j], account, now);
      j := j + 1;
    }
    assert rs[..j] == rs;
  }

  const WID_CHECKS := 20

  /** The result of the wait: whether a WID was seen, how many one-second
      checks took place, and the account afterwards. */
  datatype Wait = Wait(found: bool, checks: nat, record: Record)

  /** The wait from check `c` on: before each check the responses of that
      second are handled; it stops at the first check that sees a WID. */
  function WaitFrom(a: Record, arrivals: nat -> seq<ApiResponse>, c: nat, now: Timestamp): (w: Wait)
    requires c <= WID_CHECKS
    ensures w.found ==> c < w.checks <= WID_CHECKS && Truthy(w.record.wid)
    ensures !w.found ==> w.checks == WID_CHECKS
    ensures w.record.(wid := a.wid, status := a.status, updatedAt := a.updatedAt) == a
    ensures w.record.status == a.status || w.record.status == Completed.Value()
    decreases WID_CHECKS - c
  {
    if c == WID_CHECKS then Wait(false, WID_CHECKS, a)
    else
      var a' := HandleResponses(a, arrivals(c), now);
      HandledResponses(a, arrivals(c), now);
      if Truthy(a'.wid) then Wait(true, c + 1, a') else WaitFrom(a', arrivals, c + 1, now)
  }

  /** When no response carries a WID, the wait changes nothing and succeeds
      only on a WID the account already had. */
  lemma {:induction false} QuietWait(a: Record, arrivals: nat -> seq<ApiResponse>, c: nat, now: Timestamp)
    requires c <= WID_CHECKS
    requires forall k :: c <= k < WID_CHECKS ==> WidValues(arrivals(k)) == []
    ensures WaitFrom(a, arrivals, c, now).record == a
    ensures WaitFrom(a, arrivals, c, now).found <==> Truthy(a.wid) && c < WID_CHECKS
    decreases WID_CHECKS - c
  {
    if c < WID_CHECKS {
      HandledResponses(a, arrivals(c), now);
      QuietWait(a, arrivals, c + 1, now);
    }
  }

  /** The twenty-check loop of `_go_to_mypage_and_extract_wid`. */
  method WaitForWid(account: AccountInfo, arrivals: nat -> seq<ApiResponse>, now: Timestamp)
    returns (found: bool, checks: nat)
    requires account.Valid()
    modifies account
    ensures account.Valid()
    ensures var w := WaitFrom(old(account.ToDict()), arrivals, 0, now);
      found == w.found && checks == w.checks && account.ToDict() == w.record
  {
    ghost var w := WaitFrom(account.ToDict(), arrivals, 0, now);
    found, checks := false, 0;
    while checks < WID_CHECKS && !found
      invariant 0 <= checks <= WID_CHECKS
      invariant account.Valid()
      invariant !found ==> WaitFrom(account.ToDict(), arrivals, checks, now) == w
      invariant found ==> w == Wait(true, checks, account.ToDict())
      decreases WID_CHECKS - checks, if found then 0 else 1
    {
      found := CheckOnce(account, arrivals, checks, now);
      checks := checks + 1;
    }
  }

  /** One of the twenty checks: the responses of second `c`, then a look at
      the WID. */
  method CheckOnce(account: AccountInfo, arrivals: nat -> seq<ApiResponse>, c: nat, now: Timestamp)
    returns (seen: bool)
    requires account.Valid() && c < WID_CHECKS
    modifies account
    ensures account.Valid()
    ensures seen ==> WaitFrom(old(account.ToDict()), arrivals, c, now) == Wait(true, c + 1, account.ToDict())
    ensures !seen ==> WaitFrom(old(account.ToDict()), arrivals, c, now) == WaitFrom(account.ToDict(), arrivals, c + 1, now)
  {
    ghost var before := account.ToDict();
    HandleArrivals(arrivals(c), account, now);
    WaitStep(before, arrivals, c, now);
    seen := Truthy(account.wid);
  }

  /** One check of the wait: handle that second's responses, then stop if
      a WID was seen. */
  lemma WaitStep(a: Record, arrivals: nat -> seq<ApiResponse>, c: nat, now: Timestamp)
    requires c < WID_CHECKS
    ensures var a' := HandleResponses(a, arrivals(c), now);
      WaitFrom(a, arrivals, c, now) == if Truthy(a'.wid) then Wait(true, c + 1, a') else WaitFrom(a', arrivals, c + 1, now)
  {
  }

  /** The my-page visit: `reached` is false when navigation raised or the
      forced retry failed; then no check runs. */
  datatype MyPageVisit = MyPageVisit(reached: bool, arrivals: nat -> seq<ApiResponse>)

  function VisitWait(a: Record, v: MyPageVisit, now: Timestamp): Wait {
    if v.reached then WaitFrom(a, v.arrivals, 0, now) else Wait(false, 0, a)
  }

  /** `_go_to_mypage_and_extract_wid`. */
  method GoToMyPageAndExtractWid(v: MyPageVisit, account: AccountInfo, now: Timestamp) returns (found: bool)
    requires account.Valid()
    modifies account
    ensures account.Valid()
    ensures found == VisitWait(old(account.ToDict()), v, now).found
    ensures account.ToDict() == VisitWait(old(account.ToDict()), v, now).record
  {
    if !v.reached {
      return false;
    }
    var checks;
    found, checks := WaitForWid(account, v.arrivals, now);
  }

  // ---------------------------------------------------------------------
  // Login and the challenge

  /** What the challenge check saw, or that it raised. */
  datatype ChallengeCheck = Checked(abnormalAccessText: bool, otpField: bool) | CheckRaised

  /** `_handle_additional_verification_check`: an error counts as no
      challenge. */
  predicate ChallengeNeeded(c: ChallengeCheck) {
    c.Checked? && (c.abnormalAccessText || c.otpField)
  }

  /** `formFilled` is false when a login field or the button was missing. */
  datatype LoginPage = LoginPage(formFilled: bool, check: ChallengeCheck, visit: MyPageVisit)

  /** Whether a login attempt succeeded and the account afterwards. */
  datatype Outcome = Outcome(ok: bool, record: Record)

  function LoginOutcome(a: Record, p: LoginPage, now: Timestamp): Outcome {
    if !p.formFilled then Outcome(false, a.(status := WidExtractionFailed.Value(), updatedAt := now))
    else if ChallengeNeeded(p.check) then Outcome(false, a)
    else
      var w := VisitWait(a, p.visit, now);
      if w.found then Outcome(true, w.record.(status := Completed.Value(), updatedAt := now))
      else Outcome(false, w.record.(status := WidExtractionFailed.Value(), updatedAt := now))
  }

  /** A challenge leaves the account untouched; otherwise success means
      "completed" with a WID and failure means "wid_extraction_failed". */
  lemma LoginStatuses(a: Record, p: LoginPage, now: Timestamp)
    ensures var o := LoginOutcome(a, p, now);
      (p.formFilled && ChallengeNeeded(p.check) ==> o == Outcome(false, a))
      && (o.ok ==> o.record.status == Completed.Value() && Truthy(o.record.wid))
      && (!o.ok && !(p.formFilled && ChallengeNeeded(p.check)) ==>
            o.record.status == WidExtractionFailed.Value())
      && o.record.(wid := a.wid, status := a.status, updatedAt := a.updatedAt) == a
      && (o.ok ==> p.formFilled && !ChallengeNeeded(p.check) && p.visit.reached)
  {
  }

  /** `login_and_extract_wid`; `loggedOut` says whether the logout for the
      next account was attempted. */
  method LoginAndExtractWid(page: LoginPage, account: AccountInfo, isMultiAccount: bool, now: Timestamp)
    returns (ok: bool, loggedOut: bool)
    requires account.Valid()
    modifies account
    ensures account.Valid()
    ensures Outcome(ok, account.ToDict()) == LoginOutcome(old(account.ToDict()), page, now)
    ensures loggedOut <==> ok && isMultiAccount
  {
    loggedOut := false;
    if !page.formFilled {
      account.UpdateStatus(WidExtractionFailed, now);
      return false, false;
    }
    var additionalAuthNeeded := ChallengeNeeded(page.check);
    if additionalAuthNeeded {
      return false, false;
    }
    var widSuccess := GoToMyPageAndExtractWid(page.visit, account, now);
    if widSuccess {
      account.UpdateStatus(Completed, now);
      loggedOut := isMultiAccount;
      return true, loggedOut;
    }
    account.UpdateStatus(WidExtractionFailed, now);
    return false, false;
  }

  /** The challenge page: whether the code could be entered, then the
      my-page visit. */
  datatype ChallengePage = ChallengePage(codeEntered: bool, visit: MyPageVisit)

  function ChallengeOutcome(a: Record, code: Option<string>, p: ChallengePage, now: Timestamp): Outcome {
    if !Truthy(code) || !p.codeEntered then Outcome(false, a)
    else
      var w := VisitWait(a, p.visit, now);
      if w.found then Outcome(true, w.record.(status := Completed.Value(), updatedAt := now))
      else Outcome(false, w.record)
  }

  /** Without a code, or when it cannot be entered, nothing changes; a
      failed WID wait changes the status only through a response that
      carried a WID; success means "completed" with a WID. */
  lemma ChallengeStatuses(a: Record, code: Option<string>, p: ChallengePage, now: Timestamp)
    ensures var o := ChallengeOutcome(a, code, p, now);
      (!Truthy(code) || !p.codeEntered ==> o == Outcome(false, a))
      && (o.ok ==> o.record.status == Completed.Value() && Truthy(o.record.wid))
      && (!o.ok ==> o.record.status == a.status || o.record.status == Completed.Value())
      && (!o.ok && (forall k :: 0 <= k < WID_CHECKS ==> WidValues(p.visit.arrivals(k)) == []) ==>
            o.record == a)
  {
    if Truthy(code) && p.codeEntered && p.visit.reached
       && (forall k :: 0 <= k < WID_CHECKS ==> WidValues(p.visit.arrivals(k)) == []) {
      QuietWait(a, p.visit.arrivals, 0, now);
    }
  }

  /** `handle_additional_verification_and_extract_wid`: the latest code,
      with no time bound, from a single listing. */
  method HandleAdditionalVerificationAndExtractWid(page: ChallengePage, account: AccountInfo,
                                                   gmail: GmailService, listing: Listing,
                                                   decode: string -> string,
                                                   isMultiAccount: bool, now: Timestamp)
    returns (ok: bool, loggedOut: bool)
    requires account.Valid()
    modifies account
    ensures account.Valid()
    ensures var code := if gmail.initialized then
                          var cs := ListingCodes(listing, LATEST_LIST_SIZE, None, decode);
                          if cs == [] then None else Some(cs[NewestIndex(cs)].code)
                        else None;
      Outcome(ok, account.ToDict()) == ChallengeOutcome(old(account.ToDict()), code, page, now)
    ensures loggedOut <==> ok && isMultiAccount
  {
    var verificationCode := gmail.GetLatestVerificationCode(listing, decode);
    if !Truthy(verificationCode) || !page.codeEntered {
      return false, false;
    }
    var widSuccess := GoToMyPageAndExtractWid(page.visit, account, now);
    if widSuccess {
      account.UpdateStatus(Completed, now);
      return true, isMultiAccount;
    }
    return false, false;
  }
}
