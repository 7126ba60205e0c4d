/** The shared helpers of src/utils/helpers.py: password and nickname
    generation, the progress bar, file-name sanitising, masking, duration
    formatting, status emojis and the account statistics. */
module Helpers {
  import opened Wrappers
  import opened Text
  import opened Account

  const PASSWORD_LENGTH_MIN := 8
  const PASSWORD_LENGTH_MAX := 12
  const SYMBOLS := "!@#$%^&*"
  const NICKNAME_PREFIX := "Member_"
  const NICKNAME_SUFFIX_LENGTH := 6

  predicate IsSymbol(c: char) { c in SYMBOLS }

  /** `string.ascii_letters + string.digits + "!@#$%^&*"`. */
  predicate IsPasswordChar(c: char) { IsLower(c) || IsUpper(c) || IsDigit(c) || IsSymbol(c) }

  // ---------------------------------------------------------------------
  // generate_password

  /** The draws of one password: one character of each class, the extra
      characters, and the index CPython's `shuffle` draws for each position
      `i` from the last down to 1 (`randbelow(i + 1)`). */
  datatype PasswordDraw = PasswordDraw(
    upper: char, lower: char, digit: char, symbol: char,
    extra: seq<char>, swaps: seq<nat>)

  predicate ValidPasswordDraw(d: PasswordDraw) {
    IsUpper(d.upper) && IsLower(d.lower) && IsDigit(d.digit) && IsSymbol(d.symbol)
    && PASSWORD_LENGTH_MIN - 4 <= |d.extra| <= PASSWORD_LENGTH_MAX - 4
    && (forall i :: 0 <= i < |d.extra| ==> IsPasswordChar(d.extra[i]))
    && |d.swaps| == 4 + |d.extra|
    && (forall i :: 0 <= i < |d.swaps| ==> d.swaps[i] <= i)
  }

  /** What the source promises of a generated password. */
  predicate GoodPassword(p: string) {
    PASSWORD_LENGTH_MIN <= |p| <= PASSWORD_LENGTH_MAX
    && (exists i :: 0 <= i < |p| && IsUpper(p[i]))
    && (exists i :: 0 <= i < |p| && IsLower(p[i]))
    && (exists i :: 0 <= i < |p| && IsDigit(p[i]))
    && (exists i :: 0 <= i < |p| && IsSymbol(p[i]))
    && (forall i :: 0 <= i < |p| ==> IsPasswordChar(p[i]))
  }

  /** `generate_password`: a truthy custom password is returned as is (so an
      empty one still leads to generation); otherwise the four class
      characters and the extra ones, shuffled. */
  method GeneratePassword(customPassword: Option<string>, d: PasswordDraw) returns (password: string)
    requires !Truthy(customPassword) ==> ValidPasswordDraw(d)
    ensures Truthy(customPassword) ==> password == customPassword.value
    ensures !Truthy(customPassword) ==> GoodPassword(password)
    ensures !Truthy(customPassword) ==>
      multiset(password) == multiset([d.upper, d.lower, d.digit, d.symbol] + d.extra)
  {
    if Truthy(customPassword) {
      return customPassword.value;
    }
    var chars := [d.upper, d.lower, d.digit, d.symbol];
    chars := chars + d.extra;
    password := Shuffle(chars, d.swaps);
    ShuffledGood(chars, password, d);
  }

  /** `random.shuffle`: position `i`, from the last down to 1, swaps with
      `swaps[i]`. The result is a permutation of the input. */
  method Shuffle(chars: string, swaps: seq<nat>) returns (out: string)
    requires |swaps| == |chars|
    requires forall i :: 0 <= i < |swaps| ==> swaps[i] <= i
    ensures |out| == |chars| && multiset(out) == multiset(chars)
  {
    out := chars;
    var i := |out| - 1;
    while i >= 1
      invariant i < |out| && |out| == |chars|
      invariant multiset(out) == multiset(chars)
    {
      var j := swaps[i];
      var tmp := out[i];
      out := out[i := out[j]][j := tmp];
      i := i - 1;
    }
  }

  /** A permutation of a valid draw's characters is a good password. */
  lemma ShuffledGood(chars: string, password: string, d: PasswordDraw)
    requires ValidPasswordDraw(d) && chars == [d.upper, d.lower, d.digit, d.symbol] + d.extra
    requires |password| == |chars| && multiset(password) == multiset(chars)
    ensures GoodPassword(password)
  {
    forall k | 0 <= k < |password| ensures IsPasswordChar(password[k]) {
      assert password[k] in multiset(chars);
    }
    WitnessIn(password, d.upper);
    WitnessIn(password, d.lower);
    WitnessIn(password, d.digit);
    WitnessIn(password, d.symbol);
  }

  lemma WitnessIn(s: string, c: char)
    requires c in multiset(s)
    ensures exists i :: 0 <= i < |s| && s[i] == c
  {
    assert c in s;
  }

  // ---------------------------------------------------------------------
  // generate_nickname

  /** `generate_nickname(custom, index)`; `suffix` is the drawn random string. */
  function GenerateNickname(customNickname: Option<string>, index: Option<int>, suffix: string): (r: string)
    requires !Truthy(customNickname) ==> IsRandomString(suffix, NICKNAME_SUFFIX_LENGTH)
    ensures Truthy(customNickname) && index.Some? && index.value > 0 ==>
      var c := customNickname.value;
      |r| >= |c| + 3 && r[..|c|] == c && r[|c|] == '_'
      && AllDigits(r[|c| + 1..]) && DecimalValue(r[|c| + 1..]) == index.value
      && (|r| == |c| + 3 || r[|c| + 1] != '0')
    ensures Truthy(customNickname) && !(index.Some? && index.value > 0) ==>
      r == customNickname.value
    ensures !Truthy(customNickname) ==>
      |r| == |NICKNAME_PREFIX| + NICKNAME_SUFFIX_LENGTH && r[..|NICKNAME_PREFIX|] == NICKNAME_PREFIX
      && IsRandomString(r[|NICKNAME_PREFIX|..], NICKNAME_SUFFIX_LENGTH)
  {
    if Truthy(customNickname) then
      if index.Some? && index.value > 0 then
        var c := customNickname.value;
        var digits := ZeroPad2(index.value);
        assert (c + "_" + digits)[|c| + 1..] == digits;
        c + "_" + digits
      else customNickname.value
    else
      assert (NICKNAME_PREFIX + suffix)[|NICKNAME_PREFIX|..] == suffix;
      NICKNAME_PREFIX + suffix
  }

  // ---------------------------------------------------------------------
  // create_progress_bar

  /** `int(a / b)` for exact `a / b`: the quotient truncated toward zero. */
  function TruncDiv(a: int, b: int): (q: int)
    requires b != 0
    ensures a >= 0 && b > 0 ==> q == a / b
  {
    var abs_a := if a < 0 then -a else a;
    var abs_b := if b < 0 then -b else b;
    if a == 0 then 0
    else if (a > 0) == (b > 0) then abs_a / abs_b
    else -(abs_a / abs_b)
  }

  /** `create_progress_bar(current, total, width)` up to its closing bracket. */
  function ProgressBar(current: int, total: int, width: int): string {
    if total == 0 then "[" + Repeat('=', width) + "]"
    else
      var filled := TruncDiv(width * current, total);
      "[" + Repeat('=', filled) + Repeat('-', width - filled) + "]"
  }

  lemma QuotientBounded(width: nat, current: nat, total: nat)
    requires current <= total && total > 0
    ensures 0 <= width * current / total <= width
  {
    var q := width * current / total;
    assert q * total <= width * current;
    assert width * current <= width * total;
  }

  /** With no total the bar is full; with `0 <= current <= total` it has
      exactly `width` cells, the first `width * current // total` of them
      '=' and the rest '-'. */
  lemma ProgressBarShape(current: int, total: int, width: int)
    requires width >= 0 && (total == 0 || 0 <= current <= total)
    ensures var bar := ProgressBar(current, total, width);
      var filled := if total == 0 then width else width * current / total;
      0 <= filled <= width
      && |bar| == width + 2 && bar[0] == '[' && bar[width + 1] == ']'
      && (forall k :: 1 <= k <= filled ==> bar[k] == '=')
      && (forall k :: filled < k <= width ==> bar[k] == '-')
  {
    if total != 0 {
      QuotientBounded(width, current, total);
      var filled := width * current / total;
      assert ProgressBar(current, total, width) == "[" + Repeat('=', filled) + Repeat('-', width - filled) + "]";
      BarCells(filled, width);
    } else {
      assert Repeat('-', 0) == [];
      assert ProgressBar(current, total, width) == "[" + Repeat('=', width) + Repeat('-', 0) + "]";
      BarCells(width, width);
    }
  }

  /** The cells of a bar with `filled` of `width` cells filled. */
  lemma BarCells(filled: int, width: int)
    requires 0 <= filled <= width
    ensures var bar := "[" + Repeat('=', filled) + Repeat('-', width - filled) + "]";
      |bar| == width + 2 && bar[0] == '[' && bar[width + 1] == ']'
      && (forall k :: 1 <= k <= filled ==> bar[k] == '=')
      && (forall k :: filled < k <= width ==> bar[k] == '-')
  {
    var bar := "[" + Repeat('=', filled) + Repeat('-', width - filled) + "]";
    forall k | 1 <= k <= filled ensures bar[k] == '=' {
      assert bar[k] == Repeat('=', filled)[k - 1];
    }
    forall k | filled < k <= width ensures bar[k] == '-' {
      assert bar[k] == Repeat('-', width - filled)[k - 1 - filled];
    }
  }

  // ---------------------------------------------------------------------
  // sanitize_filename

  const INVALID_FILENAME_CHARS := "<>:\"/\\|?*"

  function SanitizeChar(c: char): char {
    if c in INVALID_FILENAME_CHARS then '_' else c
  }

  /** Each invalid character replaced by '_', every other kept. */
  function Sanitized(s: string): (r: string)
    ensures |r| == |s| && forall i :: 0 <= i < |s| ==> r[i] == SanitizeChar(s[i])
  {
    seq(|s|, (i: int) requires 0 <= i < |s| => SanitizeChar(s[i]))
  }

  /** `sanitize_filename`: one `replace` per invalid character. */
  method SanitizeFilename(filename: string) returns (r: string)
    ensures r == Sanitized(filename)
  {
    r := filename;
    var k := 0;
    while k < |INVALID_FILENAME_CHARS|
      invariant 0 <= k <= |INVALID_FILENAME_CHARS|
      invariant |r| == |filename|
      invariant forall i :: 0 <= i < |r| ==>
        r[i] == if filename[i] in INVALID_FILENAME_CHARS[..k] then '_' else filename[i]
    {
      var c := INVALID_FILENAME_CHARS[k];
      ReplaceCharPointwise(r, c, '_');
      assert INVALID_FILENAME_CHARS[..k + 1] == INVALID_FILENAME_CHARS[..k] + [c];
      r := ReplaceAll(r, [c], "_");
      k := k + 1;
    }
    assert INVALID_FILENAME_CHARS[..k] == INVALID_FILENAME_CHARS;
  }

  /** Sanitising leaves no invalid character, so a second pass changes
      nothing. */
  lemma SanitizeIdempotent(s: string)
    ensures forall i :: 0 <= i < |s| ==> Sanitized(s)[i] !in INVALID_FILENAME_CHARS
    ensures Sanitized(Sanitized(s)) == Sanitized(s)
  {
    assert '_' !in INVALID_FILENAME_CHARS;
  }

  // ---------------------------------------------------------------------
  // mask_sensitive_data

  /** `mask_sensitive_data(text, mask_char)` for a one-character mask. */
  function MaskSensitiveData(text: string, maskChar: char): (r: string)
    ensures |r| == |text|
    ensures forall i :: 0 <= i < |r| ==>
      r[i] == if |text| > 2 && (i == 0 || i == |text| - 1) then text[i] else maskChar
  {
    if |text| <= 2 then Repeat(maskChar, |text|)
    else [text[0]] + Repeat(maskChar, |text| - 2) + [text[|text| - 1]]
  }

  // ---------------------------------------------------------------------
  // format_duration

  datatype Duration = Duration(hours: int, minutes: int, seconds: int)

  /** The `//` and `%` split of `format_duration`. */
  function DurationParts(totalSeconds: int): (d: Duration)
    ensures totalSeconds == d.hours * 3600 + d.minutes * 60 + d.seconds
    ensures 0 <= d.minutes < 60 && 0 <= d.seconds < 60
    ensures totalSeconds >= 0 ==> d.hours >= 0
  {
    var r := totalSeconds % 3600;
    assert r % 60 == totalSeconds % 60;
    Duration(totalSeconds / 3600, r / 60, totalSeconds % 60)
  }

  /** The split is the only one with minutes and seconds below 60. */
  lemma DurationUnique(totalSeconds: int, d: Duration)
    requires totalSeconds == d.hours * 3600 + d.minutes * 60 + d.seconds
    requires 0 <= d.minutes < 60 && 0 <= d.seconds < 60
    ensures d == DurationParts(totalSeconds)
  {
    var e := DurationParts(totalSeconds);
    var x := d.minutes * 60 + d.seconds;
    var y := e.minutes * 60 + e.seconds;
    assert 0 <= x < 3600 && 0 <= y < 3600;
    assert (d.hours - e.hours) * 3600 == y - x;
    assert d.hours == e.hours;
    assert d.minutes * 60 + d.seconds == e.minutes * 60 + e.seconds;
    assert d.minutes == e.minutes;
  }

  function FormatDuration(totalSeconds: int): string {
    var d := DurationParts(totalSeconds);
    if d.hours > 0 then
      IntToString(d.hours) + "시간 " + IntToString(d.minutes) + "분 " + IntToString(d.seconds) + "초"
    else if d.minutes > 0 then
      IntToString(d.minutes) + "분 " + IntToString(d.seconds) + "초"
    else IntToString(d.seconds) + "초"
  }

  /** The form by input range: under a minute the seconds alone, under an
      hour minutes and seconds, from an hour on hours as well; a negative
      input floors to negative hours, so only minutes (when non-zero) and
      seconds are shown. */
  lemma FormatDurationForms(totalSeconds: int)
    ensures var d := DurationParts(totalSeconds);
      var secs := IntToString(d.seconds) + "초";
      var r := FormatDuration(totalSeconds);
      (0 <= totalSeconds < 60 ==> r == secs)
      && (60 <= totalSeconds < 3600 ==> r == IntToString(d.minutes) + "분 " + secs)
      && (totalSeconds >= 3600 ==>
            r == IntToString(d.hours) + "시간 " + IntToString(d.minutes) + "분 " + secs)
      && (totalSeconds < 0 && d.minutes > 0 ==> r == IntToString(d.minutes) + "분 " + secs)
      && (totalSeconds < 0 && d.minutes == 0 ==> r == secs)
  {
  }

  // ---------------------------------------------------------------------
  // get_status_emoji

  const STATUS_EMOJIS: map<string, string> := map[
    "created" := "🆕",
    "email_step_failed" := "❌",
    "password_step_failed" := "❌",
    "nickname_step_failed" := "❌",
    "terms_step_failed" := "❌",
    "email_verification_pending" := "⏳",
    "email_verification_failed" := "❌",
    "email_verified" := "✅",
    "wid_extraction_failed" := "⚠️",
    "completed" := "🎉",
    "creation_failed" := "❌"
  ]

  function GetStatusEmoji(status: string): string {
    if status in STATUS_EMOJIS then STATUS_EMOJIS[status] else "❓"
  }

  /** Every status has its own entry; the cross marks exactly the failures
      other than a failed WID extraction, which gets the warning sign; a
      string that is no status gets the question mark. */
  lemma StatusEmojiClassification(s: Status)
    ensures GetStatusEmoji(s.Value()) != "❓"
    ensures GetStatusEmoji(s.Value()) == "❌" <==> IsFailedValue(s.Value()) && s != WidExtractionFailed
    ensures GetStatusEmoji(s.Value()) == "⚠️" <==> s == WidExtractionFailed
    ensures GetStatusEmoji(s.Value()) == "🎉" <==> IsCompletedValue(s.Value())
  {
  }

  lemma UnknownStatusEmoji(status: string)
    requires forall s: Status :: s.Value() != status
    ensures GetStatusEmoji(status) == "❓"
  {
    assert Created.Value() != status && EmailStepFailed.Value() != status;
    assert PasswordStepFailed.Value() != status && NicknameStepFailed.Value() != status;
    assert TermsStepFailed.Value() != status && EmailVerificationPending.Value() != status;
    assert EmailVerificationFailed.Value() != status && EmailVerified.Value() != status;
    assert WidExtractionFailed.Value() != status && Completed.Value() != status;
    assert CreationFailed.Value() != status;
  }

  // ---------------------------------------------------------------------
  // get_account_statistics

  /** A ratio `numerator / denominator` standing in for a float. */
  datatype Ratio = Ratio(numerator: nat, denominator: nat)

  datatype Statistics = Statistics(
    total: nat, completed: nat, failed: nat, pending: nat,
    byStatus: map<string, nat>, environments: map<string, nat>,
    creationTimes: seq<string>,
    successRate: Ratio)  // percent: completed * 100 / total

  function CountStatus(rs: seq<Record>, status: string): nat {
    if rs == [] then 0
    else CountStatus(rs[..|rs| - 1], status) + (if rs[|rs| - 1].status == status then 1 else 0)
  }

  function CountEnvironment(rs: seq<Record>, env: string): nat {
    if rs == [] then 0
    else CountEnvironment(rs[..|rs| - 1], env) + (if rs[|rs| - 1].environment == env then 1 else 0)
  }

  /** The non-empty creation times, in order. */
  function CreationTimes(rs: seq<Record>): seq<string> {
    if rs == [] then []
    else CreationTimes(rs[..|rs| - 1]) + (if rs[|rs| - 1].createdAt != "" then [rs[|rs| - 1].createdAt] else [])
  }

  ghost function SomeKey(m: map<string, nat>): string
    requires m != map[]
  {
    var k :| k in m; k
  }

  /** The sum of a map's values. */
  ghost function MapSum(m: map<string, nat>): nat
    decreases |m|
  {
    if m == map[] then 0 else m[SomeKey(m)] + MapSum(m - {SomeKey(m)})
  }

  lemma {:induction false} MapSumRemove(m: map<string, nat>, k: string)
    requires k in m
    ensures MapSum(m) == m[k] + MapSum(m - {k})
    decreases |m|
  {
    var p := SomeKey(m);
    if p != k {
      MapSumRemove(m - {p}, k);
      MapSumRemove(m - {k}, p);
      assert m - {p} - {k} == m - {k} - {p};
    }
  }

  /** `m[k] = m.get(k, 0) + 1` adds one to the sum. */
  lemma MapSumIncrement(m: map<string, nat>, k: string)
    ensures MapSum(m[k := (if k in m then m[k] else 0) + 1]) == MapSum(m) + 1
  {
    var m' := m[k := (if k in m then m[k] else 0) + 1];
    MapSumRemove(m', k);
    assert m' - {k} == m - {k};
    if k in m {
      MapSumRemove(m, k);
    } else {
      assert m - {k} == m;
    }
  }

  lemma CountStep(rs: seq<Record>, i: nat)
    requires i < |rs|
    ensures CountCompleted(rs[..i + 1]) == CountCompleted(rs[..i]) + (if IsCompletedValue(rs[i].status) then 1 else 0)
    ensures CountFailed(rs[..i + 1]) == CountFailed(rs[..i]) + (if IsFailedValue(rs[i].status) then 1 else 0)
    ensures CreationTimes(rs[..i + 1]) == CreationTimes(rs[..i]) + (if rs[i].createdAt != "" then [rs[i].createdAt] else [])
  {
    assert rs[..i + 1][..i] == rs[..i];
  }

  /** `m` holds, for exactly the statuses that occur in `rs`, their counts. */
  ghost predicate StatusTally(rs: seq<Record>, m: map<string, nat>) {
    (forall s :: s in m <==> CountStatus(rs, s) > 0)
    && (forall s :: s in m ==> m[s] == CountStatus(rs, s))
  }

  ghost predicate EnvironmentTally(rs: seq<Record>, m: map<string, nat>) {
    (forall e :: e in m <==> CountEnvironment(rs, e) > 0)
    && (forall e :: e in m ==> m[e] == CountEnvironment(rs, e))
  }

  /** One more record adds one to the count of its status. */
  lemma CountStatusStep(rs: seq<Record>, i: nat, s: string)
    requires i < |rs|
    ensures CountStatus(rs[..i + 1], s) == CountStatus(rs[..i], s) + (if rs[i].status == s then 1 else 0)
  {
    assert rs[..i + 1][..i] == rs[..i];
  }

  lemma CountEnvironmentStep(rs: seq<Record>, i: nat, e: string)
    requires i < |rs|
    ensures CountEnvironment(rs[..i + 1], e) == CountEnvironment(rs[..i], e) + (if rs[i].environment == e then 1 else 0)
  {
    assert rs[..i + 1][..i] == rs[..i];
  }

  /** The `by_status` update of one loop iteration keeps the tally. */
  lemma StatusMapStep(rs: seq<Record>, i: nat, m: map<string, nat>, m': map<string, nat>)
    requires i < |rs| && StatusTally(rs[..i], m) && MapSum(m) == i
    requires m' == m[rs[i].status := (if rs[i].status in m then m[rs[i].status] else 0) + 1]
    ensures StatusTally(rs[..i + 1], m') && MapSum(m') == i + 1
  {
    forall s ensures (s in m' <==> CountStatus(rs[..i + 1], s) > 0)
                  && (s in m' ==> m'[s] == CountStatus(rs[..i + 1], s)) {
      CountStatusStep(rs, i, s);
    }
    MapSumIncrement(m, rs[i].status);
  }

  lemma EnvironmentMapStep(rs: seq<Record>, i: nat, m: map<string, nat>, m': map<string, nat>)
    requires i < |rs| && EnvironmentTally(rs[..i], m) && MapSum(m) == i
    requires m' == m[rs[i].environment := (if rs[i].environment in m then m[rs[i].environment] else 0) + 1]
    ensures EnvironmentTally(rs[..i + 1], m') && MapSum(m') == i + 1
  {
    forall e ensures (e in m' <==> CountEnvironment(rs[..i + 1], e) > 0)
                  && (e in m' ==> m'[e] == CountEnvironment(rs[..i + 1], e)) {
      CountEnvironmentStep(rs, i, e);
    }
    MapSumIncrement(m, rs[i].environment);
  }

  /** The running totals of the statistics loop after the records `rs`. */
  ghost predicate Tallied(rs: seq<Record>, completed: nat, failed: nat, pending: nat,
                          byStatus: map<string, nat>, environments: map<string, nat>,
                          creationTimes: seq<string>) {
    completed == CountCompleted(rs) && failed == CountFailed(rs)
    && completed + failed + pending == |rs|
    && StatusTally(rs, byStatus) && EnvironmentTally(rs, environments)
    && MapSum(byStatus) == |rs| && MapSum(environments) == |rs|
    && creationTimes == CreationTimes(rs)
  }

  /** One iteration of the statistics loop, on the record `rs[i]`. */
  lemma TallyStep(rs: seq<Record>, i: nat,
                  completed: nat, failed: nat, pending: nat,
                  byStatus: map<string, nat>, environments: map<string, nat>,
                  creationTimes: seq<string>,
                  completed': nat, failed': nat, pending': nat,
                  byStatus': map<string, nat>, environments': map<string, nat>,
                  creationTimes': seq<string>)
    requires i < |rs|
    requires Tallied(rs[..i], completed, failed, pending, byStatus, environments, creationTimes)
    requires var st := rs[i].status;
      if IsCompletedValue(st) then completed' == completed + 1 && failed' == failed && pending' == pending
      else if IsFailedValue(st) then completed' == completed && failed' == failed + 1 && pending' == pending
      else completed' == completed && failed' == failed && pending' == pending + 1
    requires byStatus' == byStatus[rs[i].status := (if rs[i].status in byStatus then byStatus[rs[i].status] else 0) + 1]
    requires environments' == environments[rs[i].environment :=
      (if rs[i].environment in environments then environments[rs[i].environment] else 0) + 1]
    requires creationTimes' == creationTimes + (if rs[i].createdAt != "" then [rs[i].createdAt] else [])
    ensures Tallied(rs[..i + 1], completed', failed', pending', byStatus', environments', creationTimes')
  {
    CountStep(rs, i);
    CompletedExcludesFailed(rs[i].status);
    StatusMapStep(rs, i, byStatus, byStatus');
    EnvironmentMapStep(rs, i, environments, environments');
  }

  /** Before the first iteration of the statistics loop. */
  lemma TallyEmpty(rs: seq<Record>)
    ensures Tallied(rs[..0], 0, 0, 0, map[], map[], [])
  {
    assert rs[..0] == [];
    assert forall s :: CountStatus([], s) == 0;
    assert forall e :: CountEnvironment([], e) == 0;
  }

  /** The body of the statistics loop, on the account whose record is
      `rs[i]`. */
  method CountAccount(account: AccountInfo, ghost rs: seq<Record>, ghost i: nat,
                      completed: nat, failed: nat, pending: nat,
                      byStatus: map<string, nat>, environments: map<string, nat>,
                      creationTimes: seq<string>)
    returns (completed': nat, failed': nat, pending': nat,
             byStatus': map<string, nat>, environments': map<string, nat>,
             creationTimes': seq<string>)
    requires i < |rs| && rs[i] == account.ToDict()
    requires Tallied(rs[..i], completed, failed, pending, byStatus, environments, creationTimes)
    ensures Tallied(rs[..i + 1], completed', failed', pending', byStatus', environments', creationTimes')
  {
    completed', failed', pending' := completed, failed, pending;
    if account.IsCompleted() {
      completed' := completed + 1;
    } else if account.IsFailed() {
      failed' := failed + 1;
    } else {
      pending' := pending + 1;
    }
    var status := account.status;
    byStatus' := byStatus[status := (if status in byStatus then byStatus[status] else 0) + 1];
    var env := account.environment;
    environments' := environments[env := (if env in environments then environments[env] else 0) + 1];
    creationTimes' := creationTimes;
    if account.createdAt != "" {
      creationTimes' := creationTimes + [account.createdAt];
    }
    TallyStep(rs, i, completed, failed, pending, byStatus, environments, creationTimes,
              completed', failed', pending', byStatus', environments', creationTimes');
  }

  /** `get_account_statistics`. Every account lands in exactly one of
      completed, failed and pending; `by_status` and `environments` have an
      entry for exactly the values that occur, holding their counts, and
      each sums to the total. */
  method GetAccountStatistics(accounts: seq<AccountInfo>) returns (stats: Statistics)
    ensures stats.total == |accounts|
    ensures Tallied(Snapshot(accounts), stats.completed, stats.failed, stats.pending,
                    stats.byStatus, stats.environments, stats.creationTimes)
    ensures stats.successRate == (if |accounts| > 0 then Ratio(stats.completed * 100, |accounts|) else Ratio(0, 1))
  {
    ghost var rs := Snapshot(accounts);
    var completed, failed, pending := 0, 0, 0;
    var byStatus: map<string, nat> := map[];
    var environments: map<string, nat> := map[];
    var creationTimes: seq<string> := [];
    var i := 0;
    assert Tallied(rs[..0], completed, failed, pending, byStatus, environments, creationTimes) by {
      TallyEmpty(rs);
    }
    while i < |accounts|
      invariant 0 <= i <= |accounts|
      invariant Tallied(rs[..i], completed, failed, pending, byStatus, environments, creationTimes)
    {
      SnapshotAt(accounts, i);
      completed, failed, pending, byStatus, environments, creationTimes :=
        CountAccount(accounts[i], rs, i, completed, failed, pending, byStatus, environments, creationTimes);
      i := i + 1;
    }
    assert rs[..i] == rs;
    var rate := if |accounts| > 0 then Ratio(completed * 100, |accounts|) else Ratio(0, 1);
    stats := Statistics(|accounts|, completed, failed, pending, byStatus, environments,
                        creationTimes, rate);
  }
}
