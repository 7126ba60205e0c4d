/** The per-account status model: the eleven status values, the account
    record whose status, WID and update time are changed in place, and the
    validated creation configuration (src/models/account.py). */
module Account {
  import opened Wrappers

  /** A reading of the clock formatted as `%Y-%m-%d %H:%M:%S`. */
  type Timestamp = s: string | |s| == 19 witness "1970-01-01 00:00:00"

  datatype Status =
    | Created
    | EmailStepFailed
    | PasswordStepFailed
    | NicknameStepFailed
    | TermsStepFailed
    | EmailVerificationPending
    | EmailVerificationFailed
    | EmailVerified
    | WidExtractionFailed
    | Completed
    | CreationFailed
  {
    /** The string stored in `AccountInfo.status`. */
    function Value(): string {
      match this
      case Created => "created"
      case EmailStepFailed => "email_step_failed"
      case PasswordStepFailed => "password_step_failed"
      case NicknameStepFailed => "nickname_step_failed"
      case TermsStepFailed => "terms_step_failed"
      case EmailVerificationPending => "email_verification_pending"
      case EmailVerificationFailed => "email_verification_failed"
      case EmailVerified => "email_verified"
      case WidExtractionFailed => "wid_extraction_failed"
      case Completed => "completed"
      case CreationFailed => "creation_failed"
    }
  }

  /** The list `is_failed` tests membership in. */
  const FAILED_VALUES: seq<string> := [
    EmailStepFailed.Value(), PasswordStepFailed.Value(), NicknameStepFailed.Value(),
    TermsStepFailed.Value(), EmailVerificationFailed.Value(), WidExtractionFailed.Value(),
    CreationFailed.Value()
  ]

  predicate IsCompletedValue(status: string) { status == Completed.Value() }

  predicate IsFailedValue(status: string) { status in FAILED_VALUES }

  /** Distinct statuses are stored as distinct strings, so a stored string
      names at most one status. */
  lemma ValueInjective(a: Status, b: Status)
    ensures a.Value() == b.Value() <==> a == b
  {
  }

  /** `is_completed` holds exactly for "completed". */
  lemma CompletedClassification(s: Status)
    ensures IsCompletedValue(s.Value()) <==> s == Completed
  {
  }

  /** `is_failed` holds exactly for the seven failure statuses; so never for
      "completed", and not for the three in-progress statuses. */
  lemma FailedClassification(s: Status)
    ensures IsFailedValue(s.Value()) <==>
      s in {EmailStepFailed, PasswordStepFailed, NicknameStepFailed, TermsStepFailed,
            EmailVerificationFailed, WidExtractionFailed, CreationFailed}
    ensures !IsFailedValue(s.Value()) <==>
      s in {Created, EmailVerificationPending, EmailVerified, Completed}
  {
  }

  /** The two predicates never hold together, whatever string is stored. */
  lemma CompletedExcludesFailed(status: string)
    ensures !(IsCompletedValue(status) && IsFailedValue(status))
  {
  }

  /** The dictionary `to_dict` produces and `from_dict` consumes. */
  datatype Record = Record(
    email: string,
    password: string,
    nickname: string,
    wid: Option<string>,
    status: string,
    createdAt: string,
    updatedAt: string,
    environment: string)

  /** What `__post_init__` makes of the fields it is given: an empty
      creation time is filled in from the clock, the update time always is. */
  function PostInit(r: Record, now: Timestamp): (p: Record)
    ensures p.createdAt != ""
    ensures r.createdAt != "" ==> p.createdAt == r.createdAt
    ensures p.updatedAt == now
    ensures p.(createdAt := r.createdAt, updatedAt := r.updatedAt) == r
  {
    r.(createdAt := if r.createdAt == "" then now else r.createdAt, updatedAt := now)
  }

  /** `from_dict(to_dict(a))` gives back every field of `a` but the update
      time, since constructed accounts always have a creation time. */
  lemma DictRoundTrip(a: Record, now: Timestamp)
    requires a.createdAt != ""
    ensures PostInit(a, now) == a.(updatedAt := now)
  {
  }

  class AccountInfo {
    var email: string
    var password: string
    var nickname: string
    var wid: Option<string>
    var status: string
    var createdAt: string
    var updatedAt: string
    var environment: string

    /** Every constructed account has a creation time. */
    ghost predicate Valid()
      reads this
    {
      createdAt != ""
    }

    function ToDict(): (r: Record)
      reads this
    {
      Record(email, password, nickname, wid, status, createdAt, updatedAt, environment)
    }

    /** `AccountInfo(email=..., password=..., nickname=..., environment=...)`:
        the defaults give status "created", no WID and both times from the clock. */
    constructor (email: string, password: string, nickname: string, environment: string,
                 now: Timestamp)
      ensures Valid()
      ensures ToDict() == Record(email, password, nickname, None, Created.Value(), now, now,
                                 environment)
    {
      this.email := email;
      this.password := password;
      this.nickname := nickname;
      this.wid := None;
      this.status := Created.Value();
      this.createdAt := now;
      this.updatedAt := now;
      this.environment := environment;
    }

    /** `from_dict(data)`, that is `cls(**data)` followed by `__post_init__`. */
    constructor FromDict(data: Record, now: Timestamp)
      ensures Valid()
      ensures ToDict() == PostInit(data, now)
    {
      email := data.email;
      password := data.password;
      nickname := data.nickname;
      wid := data.wid;
      status := data.status;
      createdAt := if data.createdAt == "" then now else data.createdAt;
      updatedAt := now;
      environment := data.environment;
    }

    /** `update_status`: accepted from any prior status (there is no
        transition guard); only the status and the update time change. */
    method UpdateStatus(s: Status, now: Timestamp)
      requires Valid()
      modifies this
      ensures Valid()
      ensures ToDict() == old(ToDict()).(status := s.Value(), updatedAt := now)
    {
      status := s.Value();
      updatedAt := now;
    }

    /** `set_wid`: stores the WID and forces the status to "completed",
        whatever it was. */
    method SetWid(w: string, now: Timestamp)
      requires Valid()
      modifies this
      ensures Valid()
      ensures ToDict() == old(ToDict()).(wid := Some(w), status := Completed.Value(),
                                          updatedAt := now)
    {
      wid := Some(w);
      status := Completed.Value();
      updatedAt := now;
    }

    predicate IsCompleted()
      reads this
    {
      IsCompletedValue(status)
    }

    predicate IsFailed()
      reads this
    {
      IsFailedValue(status)
    }
  }

  /** The records of a list of accounts, in list order. */
  function Snapshot(accounts: seq<AccountInfo>): (rs: seq<Record>)
    reads set a: AccountInfo | a in accounts
    ensures |rs| == |accounts|
  {
    if accounts == [] then []
    else Snapshot(accounts[..|accounts| - 1]) + [accounts[|accounts| - 1].ToDict()]
  }

  /** The `i`-th record is the `i`-th account's. */
  lemma {:induction false} SnapshotAt(accounts: seq<AccountInfo>, i: nat)
    requires i < |accounts|
    ensures Snapshot(accounts)[i] == accounts[i].ToDict()
    decreases |accounts|
  {
    if i < |accounts| - 1 {
      SnapshotAt(accounts[..|accounts| - 1], i);
    }
  }

  /** Every record is its account's. */
  lemma SnapshotElements(accounts: seq<AccountInfo>)
    ensures forall i :: 0 <= i < |accounts| ==> Snapshot(accounts)[i] == accounts[i].ToDict()
  {
    forall i | 0 <= i < |accounts| ensures Snapshot(accounts)[i] == accounts[i].ToDict() {
      SnapshotAt(accounts, i);
    }
  }

  /** Appending an account appends its record. */
  lemma SnapshotAppend(accounts: seq<AccountInfo>, a: AccountInfo)
    ensures Snapshot(accounts + [a]) == Snapshot(accounts) + [a.ToDict()]
  {
    assert (accounts + [a])[..|accounts|] == accounts;
  }

  /** Appending one account after a list that extends another. */
  lemma AppendAfter(accounts0: seq<AccountInfo>, made: seq<AccountInfo>, a: AccountInfo)
    ensures (accounts0 + made) + [a] == accounts0 + (made + [a])
  {
  }

  /** A list extended by at most `n` accounts. */
  lemma AppendBound(accounts0: seq<AccountInfo>, made: seq<AccountInfo>, n: nat)
    requires |Snapshot(made)| <= n
    ensures accounts0 <= accounts0 + made && |accounts0 + made| <= |accounts0| + n
  {
  }

  /** The number of records whose status is "completed". */
  function CountCompleted(rs: seq<Record>): nat {
    if rs == [] then 0
    else CountCompleted(rs[..|rs| - 1]) + (if IsCompletedValue(rs[|rs| - 1].status) then 1 else 0)
  }

  /** The number of records whose status is one of the failure values. */
  function CountFailed(rs: seq<Record>): nat {
    if rs == [] then 0
    else CountFailed(rs[..|rs| - 1]) + (if IsFailedValue(rs[|rs| - 1].status) then 1 else 0)
  }

  /** No record is both completed and failed, so the two counts together
      never exceed the number of records. */
  lemma {:induction false} CountsBounded(rs: seq<Record>)
    ensures CountCompleted(rs) + CountFailed(rs) <= |rs|
  {
    if rs != [] {
      CountsBounded(rs[..|rs| - 1]);
      CompletedExcludesFailed(rs[|rs| - 1].status);
    }
  }

  /** The positions of the records whose status passes `p`, in increasing
      order. */
  ghost function PassingIndices(rs: seq<Record>, p: string -> bool): (ix: seq<nat>)
    ensures forall k :: 0 <= k < |ix| ==> ix[k] < |rs|
  {
    if rs == [] then []
    else PassingIndices(rs[..|rs| - 1], p) + (if p(rs[|rs| - 1].status) then [|rs| - 1] else [])
  }

  /** Those positions are exactly the passing ones, each once and in
      increasing order. */
  lemma {:induction false} PassingIndicesExact(rs: seq<Record>, p: string -> bool)
    ensures var ix := PassingIndices(rs, p);
      (forall j, k :: 0 <= j < k < |ix| ==> ix[j] < ix[k])
      && (forall i :: 0 <= i < |rs| ==> (i in ix <==> p(rs[i].status)))
  {
    if rs != [] {
      var n := |rs| - 1;
      PassingIndicesExact(rs[..n], p);
      var ix0 := PassingIndices(rs[..n], p);
      assert forall i :: 0 <= i < n ==> rs[..n][i] == rs[i];
      assert n !in ix0;
    }
  }

  /** The records satisfying the completed test (the list that
      `get_successful_accounts` returns, as records): the records at the
      completed positions, in list order. */
  function CompletedRecords(rs: seq<Record>): (out: seq<Record>)
    ensures |out| == CountCompleted(rs)
    ensures forall r :: r in out ==> r in rs && IsCompletedValue(r.status)
    ensures var ix := PassingIndices(rs, IsCompletedValue);
      |out| == |ix| && forall k :: 0 <= k < |ix| ==> out[k] == rs[ix[k]]
  {
    if rs == [] then []
    else
      var init, last := rs[..|rs| - 1], rs[|rs| - 1];
      CompletedRecords(init) + (if IsCompletedValue(last.status) then [last] else [])
  }

  /** The records satisfying the failed test (`get_failed_accounts`): the
      records at the failed positions, in list order. */
  function FailedRecords(rs: seq<Record>): (out: seq<Record>)
    ensures |out| == CountFailed(rs)
    ensures forall r :: r in out ==> r in rs && IsFailedValue(r.status)
    ensures var ix := PassingIndices(rs, IsFailedValue);
      |out| == |ix| && forall k :: 0 <= k < |ix| ==> out[k] == rs[ix[k]]
  {
    if rs == [] then []
    else
      var init, last := rs[..|rs| - 1], rs[|rs| - 1];
      FailedRecords(init) + (if IsFailedValue(last.status) then [last] else [])
  }

  /** Every completed record appears as often as in the input, and no other. */
  lemma {:induction false} CompletedRecordsCount(rs: seq<Record>)
    ensures forall x :: multiset(CompletedRecords(rs))[x] == (if IsCompletedValue(x.status) then multiset(rs)[x] else 0)
  {
    if rs != [] {
      var n := |rs| - 1;
      CompletedRecordsCount(rs[..n]);
      assert rs == rs[..n] + [rs[n]];
      assert multiset(rs) == multiset(rs[..n]) + multiset{rs[n]};
    }
  }

  /** Every failed record appears as often as in the input, and no other. */
  lemma {:induction false} FailedRecordsCount(rs: seq<Record>)
    ensures forall x :: multiset(FailedRecords(rs))[x] == (if IsFailedValue(x.status) then multiset(rs)[x] else 0)
  {
    if rs != [] {
      var n := |rs| - 1;
      FailedRecordsCount(rs[..n]);
      assert rs == rs[..n] + [rs[n]];
      assert multiset(rs) == multiset(rs[..n]) + multiset{rs[n]};
    }
  }

  /** The fields of `AccountCreationConfig` that matter to the pipeline. */
  datatype CreationConfig = CreationConfig(
    environment: string,
    count: int,
    baseEmail: Option<string>,
    customPassword: Option<string>,
    customNickname: Option<string>,
    delay: int,
    slackWebhookUrl: Option<string>,
    hasGmailAccount: bool)

  datatype ConfigError = RealWithoutBaseEmail | CountNotPositive | NegativeDelay

  /** `AccountCreationConfig(...)`: `__post_init__` raises on the first
      failing check, in this order. */
  function NewConfig(c: CreationConfig): (r: Result<CreationConfig, ConfigError>)
    ensures r.Success? <==>
      !(c.environment == "real" && !Truthy(c.baseEmail)) && c.count > 0 && c.delay >= 0
    ensures r.Success? ==> r.value == c
    ensures r.Failure? && r.error == RealWithoutBaseEmail <==>
      c.environment == "real" && !Truthy(c.baseEmail)
    ensures r.Failure? && r.error == CountNotPositive <==>
      !(c.environment == "real" && !Truthy(c.baseEmail)) && c.count <= 0
    ensures r.Failure? && r.error == NegativeDelay <==>
      !(c.environment == "real" && !Truthy(c.baseEmail)) && c.count > 0 && c.delay < 0
  {
    if c.environment == "real" && !Truthy(c.baseEmail) then Failure(RealWithoutBaseEmail)
    else if c.count <= 0 then Failure(CountNotPositive)
    else if c.delay < 0 then Failure(NegativeDelay)
    else Success(c)
  }

  /** Only "real" is checked: any other environment string, "qa" or not,
      passes construction when count and delay are in range. */
  lemma OtherEnvironmentsAccepted(c: CreationConfig)
    requires c.environment != "real" && c.count > 0 && c.delay >= 0
    ensures NewConfig(c) == Success(c)
  {
  }
}
