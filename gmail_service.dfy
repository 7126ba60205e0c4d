/** The selection logic of src/services/gmail_service.py: reading a
    message body, pulling a six-digit code or a verification link out of it,
    and the polling loops that choose among the listed messages.

    The Gmail API is replaced by inputs: each poll is a `Listing` of
    fetched messages (receive time in milliseconds and payload), the clock
    reading taken while a message is examined travels with it, base64url
    decoding is the function `decode`, and the link regexes are the
    function `scan`, which reports what each pattern's `findall` returns. */
module Gmail {
  import opened Wrappers
  import opened Text

  // ---------------------------------------------------------------------
  // Messages and bodies

  datatype Part = Part(mimeType: string, data: Option<string>)

  /** `msg['payload']`: a multipart payload, a single-part one with its
      `body.data`, or one without a `body` (reading it raises). */
  datatype Payload = Multipart(parts: seq<Part>) | Single(data: Option<string>) | NoBody

  datatype Message = Message(receivedAtMs: int, payload: Payload)

  /** The findall results `_extract_verification_link` works on: per
      pattern of the button, domain and redirect tiers the list of matches
      (redirect matches already URL-unquoted), and every `href` value. */
  datatype LinkMatches = LinkMatches(
    buttons: seq<seq<string>>,
    domains: seq<seq<string>>,
    redirects: seq<seq<string>>,
    hrefs: seq<string>)

  /** The opaque parts of reading a message: base64url decoding and the
      link regexes. */
  datatype Readers = Readers(decode: string -> string, scan: string -> LinkMatches)

  predicate IsTextPart(p: Part) { p.mimeType == "text/html" || p.mimeType == "text/plain" }

  /** The decoded text of one multipart part, empty when it is skipped. */
  function PartText(p: Part, decode: string -> string): string {
    if IsTextPart(p) && Truthy(p.data) then decode(p.data.value) else ""
  }

  /** The concatenated part texts. */
  function PartsText(parts: seq<Part>, decode: string -> string): string {
    if parts == [] then ""
    else PartsText(parts[..|parts| - 1], decode) + PartText(parts[|parts| - 1], decode)
  }

  /** The body `_extract_email_body` returns, `None` where it raises. */
  function EmailBody(payload: Payload, decode: string -> string): Option<string> {
    match payload
    case Multipart(parts) => Some(PartsText(parts, decode))
    case Single(data) => Some(if Truthy(data) then decode(data.value) else "")
    case NoBody => None
  }

  /** `_extract_email_body`: appends the decoded text parts in order. */
  method ExtractEmailBody(payload: Payload, decode: string -> string) returns (body: Option<string>)
    ensures body == EmailBody(payload, decode)
    ensures payload.Multipart? ==>
      body == Some(PartsText(payload.parts, decode))
      && (forall i :: 0 <= i < |payload.parts| && !IsTextPart(payload.parts[i]) ==>
            PartText(payload.parts[i], decode) == "")
  {
    match payload
    case NoBody =>
      return None;
    case Single(data) =>
      if Truthy(data) {
        return Some(decode(data.value));
      }
      return Some("");
    case Multipart(parts) =>
      var text := "";
      var i := 0;
      while i < |parts|
        invariant 0 <= i <= |parts|
        invariant text == PartsText(parts[..i], decode)
      {
        assert parts[..i + 1][..i] == parts[..i];
        var part := parts[i];
        if part.mimeType == "text/html" || part.mimeType == "text/plain" {
          var data := part.data;
          if Truthy(data) {
            text := text + decode(data.value);
          }
        }
        i := i + 1;
      }
      assert parts[..i] == parts;
      return Some(text);
  }

  // ---------------------------------------------------------------------
  // _extract_verification_code

  const CODE_LABEL := "인증 코드"

  predicate SixDigitsAt(s: string, p: nat) {
    p + 6 <= |s| && AllDigits(s[p..p + 6])
  }

  /** The first index from `p` that is not whitespace. */
  function SkipSpaces(s: string, p: nat): (q: nat)
    requires p <= |s|
    ensures p <= q <= |s| && (q < |s| ==> !IsSpace(s[q]))
    ensures forall k :: p <= k < q ==> IsSpace(s[k])
    decreases |s| - p
  {
    if p < |s| && IsSpace(s[p]) then SkipSpaces(s, p + 1) else p
  }

  /** `인증 코드(\s*)?(\d{6})` matches at `p`: the label, any whitespace, six
      digits (whitespace is never a digit, so the greedy run cannot give
      any back). */
  predicate LabelledAt(s: string, p: nat) {
    p + |CODE_LABEL| <= |s| && s[p..p + |CODE_LABEL|] == CODE_LABEL
    && SixDigitsAt(s, SkipSpaces(s, p + |CODE_LABEL|))
  }

  /** The leftmost match of `(\d{6})` at or after `p`. */
  function FirstSixDigits(s: string, p: nat): (r: Option<nat>)
    ensures r.Some? ==> (p <= r.value && SixDigitsAt(s, r.value)
                         && forall q :: p <= q < r.value ==> !SixDigitsAt(s, q))
    ensures r.None? ==> forall q :: p <= q ==> !SixDigitsAt(s, q)
    decreases |s| - p
  {
    if p + 6 > |s| then None
    else if SixDigitsAt(s, p) then Some(p)
    else FirstSixDigits(s, p + 1)
  }

  /** The leftmost match of the labelled pattern at or after `p`. */
  function FirstLabelled(s: string, p: nat): (r: Option<nat>)
    ensures r.Some? ==> (p <= r.value && LabelledAt(s, r.value)
                         && forall q :: p <= q < r.value ==> !LabelledAt(s, q))
    ensures r.None? ==> forall q :: p <= q ==> !LabelledAt(s, q)
    decreases |s| - p
  {
    if p + |CODE_LABEL| > |s| then None
    else if LabelledAt(s, p) then Some(p)
    else FirstLabelled(s, p + 1)
  }

  /** Where the digits of a labelled match at `p` start. */
  function LabelledCodeStart(s: string, p: nat): (q: nat)
    requires LabelledAt(s, p)
    ensures SixDigitsAt(s, q)
  {
    SkipSpaces(s, p + |CODE_LABEL|)
  }

  /** The six digits at `q`. */
  function CodeAt(s: string, q: nat): (c: string)
    requires SixDigitsAt(s, q)
    ensures |c| == 6 && AllDigits(c)
  {
    s[q..q + 6]
  }

  /** The code of a body: after the leftmost labelled match if there is one,
      else the leftmost run of six digits. The two later patterns of the
      source (`>(\d{6})<` and `코드[^\d]*(\d{6})`) contain six digits, so they
      can match only where `(\d{6})` already did, and are never reached. */
  function CodeInBody(body: string): (r: Option<string>)
    ensures r.Some? ==> |r.value| == 6 && AllDigits(r.value)
    ensures r.None? <==> forall q :: !SixDigitsAt(body, q)
    ensures FirstLabelled(body, 0).Some? ==>
      r == Some(CodeAt(body, LabelledCodeStart(body, FirstLabelled(body, 0).value)))
    ensures FirstLabelled(body, 0).None? && r.Some? ==>
      r == Some(CodeAt(body, FirstSixDigits(body, 0).value))
  {
    match FirstLabelled(body, 0)
    case Some(p) =>
      Some(CodeAt(body, LabelledCodeStart(body, p)))
    case None =>
      match FirstSixDigits(body, 0)
      case Some(q) => Some(CodeAt(body, q))
      case None => None
  }

  /** `_extract_verification_code`. */
  function ExtractVerificationCode(payload: Payload, decode: string -> string): (r: Option<string>)
    ensures r.Some? ==> |r.value| == 6 && AllDigits(r.value)
    ensures EmailBody(payload, decode).None? ==> r.None?
  {
    match EmailBody(payload, decode)
    case None => None
    case Some(body) => CodeInBody(body)
  }

  // ---------------------------------------------------------------------
  // _extract_verification_link

  function Unescape(s: string): string { ReplaceAll(s, "&amp;", "&") }

  /** The redirect tier's test on an unquoted link. */
  predicate RedirectAccepted(link: string) {
    var l := Lower(link);
    Contains(l, "weverse")
    && (Contains(l, "signup-complete") || Contains(l, "verify") || Contains(l, "key="))
  }

  /** The last-resort tier's test: the redirect keywords or "confirm". */
  predicate LastResortAccepted(link: string) {
    var l := Lower(link);
    Contains(l, "weverse")
    && (Contains(l, "signup-complete") || Contains(l, "verify") || Contains(l, "confirm")
        || Contains(l, "key="))
  }

  /** The first match of the first pattern that matched at all. */
  function FirstMatch(lists: seq<seq<string>>): (r: Option<string>)
    ensures r.None? <==> forall i :: 0 <= i < |lists| ==> lists[i] == []
    ensures r.Some? ==> exists i :: (0 <= i < |lists| && lists[i] != [] && r.value == lists[i][0]
                                     && forall j :: 0 <= j < i ==> lists[j] == [])
  {
    if lists == [] then None
    else if lists[0] != [] then Some(lists[0][0])
    else
      var r := FirstMatch(lists[1..]);
      if r.Some? then
        var i :| 0 <= i < |lists[1..]| && lists[1..][i] != [] && r.value == lists[1..][i][0]
          && forall j :: 0 <= j < i ==> lists[1..][j] == [];
        assert lists[i + 1] != [] && forall j :: 0 <= j < i + 1 ==> lists[j] == [];
        r
      else r
  }

  /** The redirect tier: of each pattern only its first match is looked at,
      and the earliest pattern whose first match passes wins. */
  function FirstRedirect(lists: seq<seq<string>>): (r: Option<string>)
    ensures r.Some? ==> (RedirectAccepted(r.value)
                         && exists i :: 0 <= i < |lists| && lists[i] != [] && r.value == lists[i][0]
                              && forall j :: 0 <= j < i && lists[j] != [] ==> !RedirectAccepted(lists[j][0]))
    ensures r.None? <==> forall i :: 0 <= i < |lists| && lists[i] != [] ==> !RedirectAccepted(lists[i][0])
  {
    if lists == [] then None
    else if lists[0] != [] && RedirectAccepted(lists[0][0]) then Some(lists[0][0])
    else
      var r := FirstRedirect(lists[1..]);
      if r.Some? then
        var i :| 0 <= i < |lists[1..]| && lists[1..][i] != [] && r.value == lists[1..][i][0]
          && forall j :: 0 <= j < i && lists[1..][j] != [] ==> !RedirectAccepted(lists[1..][j][0]);
        assert lists[i + 1] != [] && r.value == lists[i + 1][0];
        assert forall j :: 1 <= j < i + 1 ==> lists[j] == lists[1..][j - 1];
        r
      else
        assert forall i :: 1 <= i < |lists| ==> lists[i] == lists[1..][i - 1];
        r
  }

  /** The last-resort tier: the first `href` whose unescaped form passes. */
  function FirstHref(hrefs: seq<string>): (r: Option<string>)
    ensures r.Some? ==> (LastResortAccepted(r.value)
                         && exists i :: 0 <= i < |hrefs| && r.value == Unescape(hrefs[i])
                              && forall j :: 0 <= j < i ==> !LastResortAccepted(Unescape(hrefs[j])))
    ensures r.None? <==> forall i :: 0 <= i < |hrefs| ==> !LastResortAccepted(Unescape(hrefs[i]))
  {
    if hrefs == [] then None
    else if LastResortAccepted(Unescape(hrefs[0])) then Some(Unescape(hrefs[0]))
    else
      var r := FirstHref(hrefs[1..]);
      if r.Some? then
        var i :| 0 <= i < |hrefs[1..]| && r.value == Unescape(hrefs[1..][i])
          && forall j :: 0 <= j < i ==> !LastResortAccepted(Unescape(hrefs[1..][j]));
        assert r.value == Unescape(hrefs[i + 1]);
        assert forall j :: 1 <= j < i + 1 ==> hrefs[j] == hrefs[1..][j - 1];
        r
      else
        assert forall i :: 1 <= i < |hrefs| ==> hrefs[i] == hrefs[1..][i - 1];
        r
  }

  /** The link of one body's matches, tier by tier. */
  function LinkFromMatches(m: LinkMatches): Option<string> {
    var button := FirstMatch(m.buttons);
    var domain := FirstMatch(m.domains);
    if button.Some? then Some(Unescape(button.value))
    else if domain.Some? then Some(Unescape(domain.value))
    else
      var redirect := FirstRedirect(m.redirects);
      if redirect.Some? then redirect else FirstHref(m.hrefs)
  }

  /** Tiers are tried in order, each returning the first match of its
      first matching pattern: the button tier, then the domain tier, then
      the redirect tier, and the last-resort tier only when the redirect
      tier accepted nothing; a link from the redirect or last-resort tier
      contains "weverse" and one of their keywords. */
  lemma LinkTiers(m: LinkMatches)
    ensures FirstMatch(m.buttons).Some? ==>
      LinkFromMatches(m) == Some(Unescape(FirstMatch(m.buttons).value))
    ensures FirstMatch(m.buttons).None? && FirstMatch(m.domains).Some? ==>
      LinkFromMatches(m) == Some(Unescape(FirstMatch(m.domains).value))
    ensures FirstMatch(m.buttons).None? && FirstMatch(m.domains).None? ==>
      (LinkFromMatches(m).Some? ==> LastResortAccepted(LinkFromMatches(m).value))
      && (LinkFromMatches(m).None? <==>
            FirstRedirect(m.redirects).None? && FirstHref(m.hrefs).None?)
    ensures FirstMatch(m.buttons).None? && FirstMatch(m.domains).None? && FirstRedirect(m.redirects).Some? ==>
      LinkFromMatches(m) == FirstRedirect(m.redirects)
    ensures FirstMatch(m.buttons).None? && FirstMatch(m.domains).None? && FirstRedirect(m.redirects).None? ==>
      LinkFromMatches(m) == FirstHref(m.hrefs)
  {
    if FirstMatch(m.buttons).None? && FirstMatch(m.domains).None? {
      var r := FirstRedirect(m.redirects);
      if r.Some? {
        RedirectIsLastResort(r.value);
      }
    }
  }

  /** Every link the redirect tier accepts, the last-resort tier accepts. */
  lemma RedirectIsLastResort(link: string)
    requires RedirectAccepted(link)
    ensures LastResortAccepted(link)
  {
  }

  /** `_extract_verification_link`; a body that cannot be read gives `None`. */
  function ExtractVerificationLink(payload: Payload, rd: Readers): (r: Option<string>)
    ensures EmailBody(payload, rd.decode).None? ==> r.None?
  {
    match EmailBody(payload, rd.decode)
    case None => None
    case Some(body) => LinkFromMatches(rd.scan(body))
  }

  // ---------------------------------------------------------------------
  // Polls

  /** One fetched message with the clock reading taken while it was
      examined, or a fetch that raised. */
  datatype Fetch = Fetched(msg: Message, nowMs: int) | FetchFailed

  /** One `messages().list(...)` call: the newest-first listing of the
      query, or a call that raised. */
  datatype Listing = Listed(fetches: seq<Fetch>) | ListFailed

  /** `maxResults`: the API returns at most this many messages. */
  function Take<T>(s: seq<T>, n: nat): (r: seq<T>)
    ensures |r| <= n && |r| <= |s| && r == s[..|r|]
    ensures |s| <= n ==> r == s
  {
    if |s| <= n then s else s[..n]
  }

  const RECENT_WINDOW_MS := 300000
  const AFTER_BUFFER_MS := 120000
  const EMAIL_LIST_SIZE := 10
  const LATEST_LIST_SIZE := 5
  const CODE_PASSES := 24
  const PASSES_PER_MINUTE := 12
  const SLEEP_SECONDS := 5

  // --- find_verification_email

  /** `(latest_link, latest_timestamp)`. */
  datatype Latest = Latest(link: Option<string>, ms: int)

  /** A message the link search may keep: fetched, received at most 300 s
      before the clock reading, and holding a non-empty link. */
  predicate LinkCandidate(f: Fetch, rd: Readers) {
    f.Fetched? && f.nowMs - f.msg.receivedAtMs <= RECENT_WINDOW_MS
    && Truthy(ExtractVerificationLink(f.msg.payload, rd))
  }

  /** One message of the link search: kept only when strictly newer. */
  function LinkStep(st: Latest, f: Fetch, rd: Readers): Latest {
    if LinkCandidate(f, rd) && f.msg.receivedAtMs > st.ms then
      Latest(ExtractVerificationLink(f.msg.payload, rd), f.msg.receivedAtMs)
    else st
  }

  function LinkFold(st: Latest, fs: seq<Fetch>, rd: Readers): Latest {
    if fs == [] then st else LinkStep(LinkFold(st, fs[..|fs| - 1], rd), fs[|fs| - 1], rd)
  }

  /** No candidate among `fs` was received after `t`. */
  predicate NoCandidateAfter(fs: seq<Fetch>, rd: Readers, t: int) {
    forall j :: 0 <= j < |fs| && LinkCandidate(fs[j], rd) ==> fs[j].msg.receivedAtMs <= t
  }

  /** `fs[i]` is a candidate with the greatest receive time, and the first
      one with that time. */
  predicate FirstNewestCandidate(fs: seq<Fetch>, rd: Readers, i: int) {
    0 <= i < |fs| && LinkCandidate(fs[i], rd)
    && NoCandidateAfter(fs, rd, fs[i].msg.receivedAtMs)
    && forall j :: 0 <= j < i && LinkCandidate(fs[j], rd) ==> fs[j].msg.receivedAtMs < fs[i].msg.receivedAtMs
  }

  /** The fold's state after `fs`, from no link and time `t0`, as the
      newest-wins rule describes it. */
  ghost predicate NewestState(st: Latest, t0: int, fs: seq<Fetch>, rd: Readers) {
    (st.link.None? ==> st.ms == t0 && NoCandidateAfter(fs, rd, t0))
    && (st.link.Some? ==>
          exists i :: FirstNewestCandidate(fs, rd, i)
            && st.link == ExtractVerificationLink(fs[i].msg.payload, rd)
            && st.ms == fs[i].msg.receivedAtMs > t0)
  }

  /** A strictly newer candidate appended to `pre` becomes the newest. */
  lemma NewerCandidateWins(pre: seq<Fetch>, f: Fetch, rd: Readers, t: int)
    requires NoCandidateAfter(pre, rd, t) && LinkCandidate(f, rd) && f.msg.receivedAtMs > t
    ensures FirstNewestCandidate(pre + [f], rd, |pre|)
  {
    var fs := pre + [f];
    assert forall j :: 0 <= j < |pre| ==> fs[j] == pre[j];
  }

  /** Appending anything but a strictly newer candidate keeps the newest. */
  lemma NewestKept(pre: seq<Fetch>, f: Fetch, rd: Readers, i: int)
    requires FirstNewestCandidate(pre, rd, i)
    requires !(LinkCandidate(f, rd) && f.msg.receivedAtMs > pre[i].msg.receivedAtMs)
    ensures FirstNewestCandidate(pre + [f], rd, i) && (pre + [f])[i] == pre[i]
  {
    var fs := pre + [f];
    assert forall j :: 0 <= j < |pre| ==> fs[j] == pre[j];
  }

  /** Appending anything but a candidate newer than `t` keeps `t` a bound. */
  lemma NoCandidateKept(pre: seq<Fetch>, f: Fetch, rd: Readers, t: int)
    requires NoCandidateAfter(pre, rd, t)
    requires !(LinkCandidate(f, rd) && f.msg.receivedAtMs > t)
    ensures NoCandidateAfter(pre + [f], rd, t)
  {
    var fs := pre + [f];
    assert forall j :: 0 <= j < |pre| ==> fs[j] == pre[j];
  }

  /** Newest wins, the first seen on ties: starting from no link and time
      `t0`, the fold keeps the link of the first candidate with the greatest
      receive time, if that time exceeds `t0`, and nothing otherwise. */
  lemma {:induction false} LinkFoldNewest(t0: int, fs: seq<Fetch>, rd: Readers)
    ensures NewestState(LinkFold(Latest(None, t0), fs, rd), t0, fs, rd)
  {
    if fs != [] {
      var n := |fs| - 1;
      var pre, f := fs[..n], fs[n];
      assert fs == pre + [f];
      LinkFoldNewest(t0, pre, rd);
      var st0 := LinkFold(Latest(None, t0), pre, rd);
      if st0.link.Some? {
        var i :| FirstNewestCandidate(pre, rd, i)
          && st0.link == ExtractVerificationLink(pre[i].msg.payload, rd)
          && st0.ms == pre[i].msg.receivedAtMs > t0;
        if LinkCandidate(f, rd) && f.msg.receivedAtMs > st0.ms {
          NewerCandidateWins(pre, f, rd, st0.ms);
        } else {
          NewestKept(pre, f, rd, i);
        }
      } else if LinkCandidate(f, rd) && f.msg.receivedAtMs > st0.ms {
        NewerCandidateWins(pre, f, rd, st0.ms);
      } else {
        NoCandidateKept(pre, f, rd, t0);
      }
    }
  }

  // --- find_verification_code_after_time and get_latest_verification_code

  datatype Code = Code(receivedAtMs: int, code: string)

  /** The code of a fetched message, `None` for a failed fetch or a body
      without one. */
  function FetchCode(f: Fetch, decode: string -> string): Option<string> {
    if f.FetchFailed? then None else ExtractVerificationCode(f.msg.payload, decode)
  }

  /** `valid_codes` of one pass: the codes of the messages received no
      earlier than 120 s before `afterMs`, in listing order. Only an absent
      `afterMs` admits every message; a negative one still filters. */
  function EligibleCodes(fs: seq<Fetch>, afterMs: Option<int>, decode: string -> string): (cs: seq<Code>)
    ensures |cs| <= |fs|
    ensures forall c :: c in cs ==> |c.code| == 6 && AllDigits(c.code)
  {
    if fs == [] then []
    else
      var f := fs[|fs| - 1];
      var keep := FetchCode(f, decode).Some?
        && (afterMs.None? || f.msg.receivedAtMs >= afterMs.value - AFTER_BUFFER_MS);
      EligibleCodes(fs[..|fs| - 1], afterMs, decode)
        + (if keep then [Code(f.msg.receivedAtMs, FetchCode(f, decode).value)] else [])
  }

  /** The head of `sort(key=time, reverse=True)`, which is stable: the first
      entry with the greatest receive time. */
  function NewestIndex(cs: seq<Code>): (i: nat)
    requires cs != []
    ensures i < |cs|
    ensures forall j :: 0 <= j < |cs| ==> cs[j].receivedAtMs <= cs[i].receivedAtMs
    ensures forall j :: 0 <= j < i ==> cs[j].receivedAtMs < cs[i].receivedAtMs
  {
    if |cs| == 1 then 0
    else
      var k := NewestIndex(cs[..|cs| - 1]);
      if cs[|cs| - 1].receivedAtMs > cs[k].receivedAtMs then |cs| - 1 else k
  }

  /** Both properties determine the index. */
  lemma NewestIndexUnique(cs: seq<Code>, i: nat)
    requires i < |cs|
    requires forall j :: 0 <= j < |cs| ==> cs[j].receivedAtMs <= cs[i].receivedAtMs
    requires forall j :: 0 <= j < i ==> cs[j].receivedAtMs < cs[i].receivedAtMs
    ensures i == NewestIndex(cs)
  {
  }

  /** The `valid_codes` / `codes_with_time` loop over one listing. */
  method CollectCodes(fs: seq<Fetch>, afterMs: Option<int>, decode: string -> string)
    returns (codes: seq<Code>)
    ensures codes == EligibleCodes(fs, afterMs, decode)
    ensures forall c :: c in codes ==> |c.code| == 6 && AllDigits(c.code)
  {
    codes := [];
    var i := 0;
    while i < |fs|
      invariant 0 <= i <= |fs|
      invariant codes == EligibleCodes(fs[..i], afterMs, decode)
    {
      assert fs[..i + 1][..i] == fs[..i];
      var f := fs[i];
      assert f == fs[..i + 1][i];
      if f.Fetched? {
        var inWindow := afterMs.None? || f.msg.receivedAtMs >= afterMs.value - AFTER_BUFFER_MS;
        if inWindow {
          var code := ExtractVerificationCode(f.msg.payload, decode);
          if code.Some? {
            codes := codes + [Code(f.msg.receivedAtMs, code.value)];
          }
        }
      }
      i := i + 1;
    }
    assert fs[..i] == fs;
  }

  /** The codes a listing offers to a pass (none when the call raised). */
  function ListingCodes(l: Listing, size: nat, afterMs: Option<int>, decode: string -> string): seq<Code> {
    if l.ListFailed? then [] else EligibleCodes(Take(l.fetches, size), afterMs, decode)
  }

  /** What a pass of the link search finds (none when the call raised). */
  function ListingLink(l: Listing, rd: Readers): Latest {
    if l.ListFailed? then Latest(None, 0) else LinkFold(Latest(None, 0), Take(l.fetches, EMAIL_LIST_SIZE), rd)
  }

  /** The link `find_verification_email` answers when the service is up:
      that of the first pass from `k` on, below `maxAttempts`, that found one. */
  function LinkSearch(passes: nat -> Listing, rd: Readers, maxAttempts: int, k: nat): (r: Option<string>)
    ensures r.Some? ==> Truthy(r)
    ensures r.None? <==> forall p :: k <= p < maxAttempts ==> !Truthy(ListingLink(passes(p), rd).link)
    decreases maxAttempts - k
  {
    if k >= maxAttempts then None
    else if Truthy(ListingLink(passes(k), rd).link) then ListingLink(passes(k), rd).link
    else LinkSearch(passes, rd, maxAttempts, k + 1)
  }

  datatype Connection = Connected | NoService | ConnectRaised

  class GmailService {
    /** `self.service is not None`. */
    var initialized: bool

    constructor ()
      ensures !initialized
    {
      initialized := false;
    }

    /** `initialize`: an exception leaves the service as it was. */
    method Initialize(outcome: Connection) returns (ok: bool)
      modifies this
      ensures ok <==> outcome == Connected
      ensures initialized == (if outcome == ConnectRaised then old(initialized) else ok)
    {
      if outcome == ConnectRaised {
        return false;
      }
      initialized := outcome == Connected;
      ok := initialized;
    }

    /** `find_verification_email`: up to `max_wait_minutes * 12` passes,
        sleeping 5 s after each pass that found no link. `attempt` is the
        pass that answered (the pass count when none did). */
    method FindVerificationEmail(maxWaitMinutes: int, passes: nat -> Listing, rd: Readers)
      returns (link: Option<string>, attempt: nat, sleptSeconds: nat)
      ensures !initialized ==> link.None? && attempt == 0 && sleptSeconds == 0
      ensures initialized ==>
        var maxAttempts := if maxWaitMinutes <= 0 then 0 else maxWaitMinutes * PASSES_PER_MINUTE;
        attempt <= maxAttempts
        && sleptSeconds == SLEEP_SECONDS * attempt
        && (forall p :: 0 <= p < attempt ==> !Truthy(ListingLink(passes(p), rd).link))
        && (attempt < maxAttempts ==> Truthy(link) && link == ListingLink(passes(attempt), rd).link)
        && (attempt == maxAttempts ==> link.None?)
        && link == LinkSearch(passes, rd, maxAttempts, 0)
    {
      if !initialized {
        return None, 0, 0;
      }
      var maxAttempts := maxWaitMinutes * PASSES_PER_MINUTE;
      var latest := Latest(None, 0);
      sleptSeconds := 0;
      attempt := 0;
      while attempt < maxAttempts
        invariant 0 <= attempt && (maxAttempts <= 0 ==> attempt == 0)
        invariant maxAttempts > 0 ==> attempt <= maxAttempts
        invariant latest == Latest(None, 0)
        invariant sleptSeconds == SLEEP_SECONDS * attempt
        invariant forall p :: 0 <= p < attempt ==> !Truthy(ListingLink(passes(p), rd).link)
        invariant LinkSearch(passes, rd, maxAttempts, 0) == LinkSearch(passes, rd, maxAttempts, attempt)
      {
        var listing := passes(attempt);
        if listing.Listed? {
          var messages := Take(listing.fetches, EMAIL_LIST_SIZE);
          latest := ScanForLink(latest, messages, rd);
          if Truthy(latest.link) {
            return latest.link, attempt, sleptSeconds;
          }
        }
        LinkFoldStaysEmpty(listing, rd);
        sleptSeconds := sleptSeconds + SLEEP_SECONDS;
        attempt := attempt + 1;
      }
      link := None;
    }

    /** `find_verification_code_after_time`: up to 24 passes, each choosing
        among its own eligible codes only; 5 s of sleep after each pass
        without one. */
    method FindVerificationCodeAfterTime(afterMs: int, passes: nat -> Listing, decode: string -> string)
      returns (code: Option<string>, attempt: nat, sleptSeconds: nat)
      ensures !initialized ==> code.None? && attempt == 0 && sleptSeconds == 0
      ensures initialized ==>
        attempt <= CODE_PASSES
        && sleptSeconds == SLEEP_SECONDS * attempt
        && (forall p :: 0 <= p < attempt ==> ListingCodes(passes(p), EMAIL_LIST_SIZE, Some(afterMs), decode) == [])
        && (attempt < CODE_PASSES ==>
              var cs := ListingCodes(passes(attempt), EMAIL_LIST_SIZE, Some(afterMs), decode);
              cs != [] && code == Some(cs[NewestIndex(cs)].code))
        && (attempt == CODE_PASSES ==> code.None?)
    {
      if !initialized {
        return None, 0, 0;
      }
      sleptSeconds := 0;
      attempt := 0;
      while attempt < CODE_PASSES
        invariant 0 <= attempt <= CODE_PASSES
        invariant sleptSeconds == SLEEP_SECONDS * attempt
        invariant forall p :: 0 <= p < attempt ==>
          ListingCodes(passes(p), EMAIL_LIST_SIZE, Some(afterMs), decode) == []
      {
        var listing := passes(attempt);
        if listing.Listed? {
          var messages := Take(listing.fetches, EMAIL_LIST_SIZE);
          var validCodes := CollectCodes(messages, Some(afterMs), decode);
          if validCodes != [] {
            var newest := NewestIndex(validCodes);
            return Some(validCodes[newest].code), attempt, sleptSeconds;
          }
        }
        sleptSeconds := sleptSeconds + SLEEP_SECONDS;
        attempt := attempt + 1;
      }
      code := None;
    }

    /** `get_latest_verification_code`: one listing of at most five
        messages, no time filter, the newest code wins. */
    method GetLatestVerificationCode(listing: Listing, decode: string -> string)
      returns (code: Option<string>)
      ensures !initialized ==> code.None?
      ensures initialized ==>
        var cs := ListingCodes(listing, LATEST_LIST_SIZE, None, decode);
        (cs == [] ==> code.None?) && (cs != [] ==> code == Some(cs[NewestIndex(cs)].code))
      ensures code.Some? ==> |code.value| == 6 && AllDigits(code.value)
    {
      if !initialized {
        return None;
      }
      if listing.ListFailed? {
        return None;
      }
      var messages := Take(listing.fetches, LATEST_LIST_SIZE);
      var codesWithTime := CollectCodes(messages, None, decode);
      if codesWithTime != [] {
        var newest := NewestIndex(codesWithTime);
        return Some(codesWithTime[newest].code);
      }
      return None;
    }
  }

  /** The per-message loop of one link pass. */
  method ScanForLink(start: Latest, fs: seq<Fetch>, rd: Readers) returns (st: Latest)
    ensures st == LinkFold(start, fs, rd)
  {
    st := start;
    var i := 0;
    while i < |fs|
      invariant 0 <= i <= |fs|
      invariant st == LinkFold(start, fs[..i], rd)
    {
      assert fs[..i + 1][..i] == fs[..i];
      var f := fs[i];
      if f.Fetched? {
        var recent := f.nowMs - f.msg.receivedAtMs <= RECENT_WINDOW_MS;
        if recent {
          var verificationLink := ExtractVerificationLink(f.msg.payload, rd);
          if Truthy(verificationLink) && f.msg.receivedAtMs > st.ms {
            st := Latest(verificationLink, f.msg.receivedAtMs);
          }
        }
      }
      i := i + 1;
    }
    assert fs[..i] == fs;
  }

  /** A pass that found no link leaves the accumulators as they were, so
      they never carry anything into the next pass. */
  lemma LinkFoldStaysEmpty(l: Listing, rd: Readers)
    ensures !Truthy(ListingLink(l, rd).link) ==> ListingLink(l, rd) == Latest(None, 0)
  {
    if l.Listed? {
      LinkFoldNewest(0, Take(l.fetches, EMAIL_LIST_SIZE), rd);
    }
  }
}
