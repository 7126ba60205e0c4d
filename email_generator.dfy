/** The identity generator of src/services/email_generator.py: QA addresses
    from a random prefix, and Gmail "dot" variants of a base address, chosen
    by attempt count among four strategies, with a timestamp fallback. The
    set of addresses already issued is the generator's state.

    Every variant the dot strategies build is `Dotted(u, m)`: the username
    `u` with a dot placed before `u[j]` exactly where `m[j]` holds. Each
    strategy is proved to build `Dotted` for its own marks. */
module EmailGeneration {
  import opened Wrappers
  import opened Text

  const QA_DOMAIN := "@benx.com"
  const GMAIL_DOMAIN := "@gmail.com"
  const MAX_ATTEMPTS := 100

  predicate NoDot(s: string) { forall i :: 0 <= i < |s| ==> s[i] != '.' }

  // ---------------------------------------------------------------------
  // The dotted-username specification

  /** `u` with a dot inserted before `u[j]` for every `j` with `m[j]`. */
  function Dotted(u: string, m: seq<bool>): string
    requires |m| == |u|
    decreases |u|
  {
    if u == [] then []
    else Dotted(u[..|u| - 1], m[..|m| - 1]) + (if m[|m| - 1] then "." else "") + [u[|u| - 1]]
  }

  /** A dot about to be placed before `u[i]`, as the "append then maybe a
      dot" loops hold it between iterations. */
  function Pending(m: seq<bool>, i: nat): string {
    if i < |m| && m[i] then "." else ""
  }

  lemma DottedStep(u: string, m: seq<bool>, i: nat)
    requires |m| == |u| && i < |u|
    ensures Dotted(u[..i + 1], m[..i + 1]) ==
            Dotted(u[..i], m[..i]) + (if m[i] then "." else "") + [u[i]]
  {
    assert u[..i + 1][..i] == u[..i];
    assert m[..i + 1][..i] == m[..i];
  }

  lemma {:induction false} DottedSplit(u1: string, m1: seq<bool>, u2: string, m2: seq<bool>)
    requires |u1| == |m1| && |u2| == |m2|
    ensures Dotted(u1 + u2, m1 + m2) == Dotted(u1, m1) + Dotted(u2, m2)
    decreases |u2|
  {
    if u2 == [] {
      assert u1 + u2 == u1;
      assert m1 + m2 == m1;
    } else {
      var u2' := u2[..|u2| - 1];
      var m2' := m2[..|m2| - 1];
      DottedSplit(u1, m1, u2', m2');
      assert (u1 + u2)[..|u1 + u2| - 1] == u1 + u2';
      assert (m1 + m2)[..|m1 + m2| - 1] == m1 + m2';
    }
  }

  /** Without marks nothing is inserted. */
  lemma {:induction false} DottedNoMarks(u: string, m: seq<bool>)
    requires |m| == |u|
    requires forall j :: 0 <= j < |m| ==> !m[j]
    ensures Dotted(u, m) == u
    decreases |u|
  {
    if u != [] {
      DottedNoMarks(u[..|u| - 1], m[..|m| - 1]);
      assert u[..|u| - 1] + [u[|u| - 1]] == u;
    }
  }

  /** Dotted strings of one mark per character, unfolded at the front. */
  lemma DottedCons(c: char, b: bool, u: string, m: seq<bool>)
    requires |m| == |u|
    ensures Dotted([c] + u, [b] + m) == (if b then "." else "") + [c] + Dotted(u, m)
  {
    DottedSplit([c], [b], u, m);
    assert Dotted([c], [b]) == Dotted([], []) + (if b then "." else "") + [c];
  }

  /** `chars.insert(pos, '.')` on a dotted string whose marks are all past
      `pos` marks `pos` as well. */
  lemma InsertDot(u: string, m: seq<bool>, pos: nat)
    requires |m| == |u| && pos < |u|
    requires forall j :: 0 <= j <= pos ==> !m[j]
    ensures pos <= |Dotted(u, m)|
    ensures Dotted(u, m[pos := true]) == Dotted(u, m)[..pos] + "." + Dotted(u, m)[pos..]
  {
    var m' := m[pos := true];
    var front := u[..pos];
    var back := [u[pos]] + Dotted(u[pos + 1..], m[pos + 1..]);
    var d := Dotted(u, m);
    assert d == front + back by {
      PrefixSuffix(u, m, pos, false);
    }
    assert d[..pos] == front && d[pos..] == back;
    assert Dotted(u, m') == front + "." + back by {
      assert m'[pos + 1..] == m[pos + 1..];
      PrefixSuffix(u, m', pos, true);
    }
  }

  lemma SplitAt<T>(s: seq<T>, i: nat)
    requires i < |s|
    ensures s == s[..i] + ([s[i]] + s[i + 1..])
  {
    assert s[i..] == [s[i]] + s[i + 1..];
    assert s == s[..i] + s[i..];
  }

  /** A dotted string whose marks are clear below `pos`, split at `pos`. */
  lemma PrefixSuffix(u: string, m: seq<bool>, pos: nat, b: bool)
    requires |m| == |u| && pos < |u| && m[pos] == b
    requires forall j :: 0 <= j < pos ==> !m[j]
    ensures Dotted(u, m) ==
      u[..pos] + (if b then "." else "") + [u[pos]] + Dotted(u[pos + 1..], m[pos + 1..])
  {
    SplitAt(u, pos);
    SplitAt(m, pos);
    UnmarkedFront(u[..pos], m[..pos], u[pos], b, u[pos + 1..], m[pos + 1..]);
  }

  /** `PrefixSuffix` on the pieces. */
  lemma UnmarkedFront(front: string, mfront: seq<bool>, c: char, b: bool, rest: string, mrest: seq<bool>)
    requires |mfront| == |front| && |mrest| == |rest|
    requires forall j :: 0 <= j < |mfront| ==> !mfront[j]
    ensures Dotted(front + ([c] + rest), mfront + ([b] + mrest)) ==
      front + (if b then "." else "") + [c] + Dotted(rest, mrest)
  {
    var back, mback := [c] + rest, [b] + mrest;
    DottedSplit(front, mfront, back, mback);
    DottedNoMarks(front, mfront);
    DottedCons(c, b, rest, mrest);
    ConcatAssoc(front, if b then "." else "", [c], Dotted(rest, mrest));
  }

  lemma ConcatAssoc<T>(a: seq<T>, b: seq<T>, c: seq<T>, d: seq<T>)
    ensures a + (b + c + d) == a + b + c + d
  {
  }

  /** `s` with its dots removed. */
  function RemoveDots(s: string): (r: string)
    ensures |r| <= |s|
  {
    if s == [] then []
    else RemoveDots(s[..|s| - 1]) + (if s[|s| - 1] == '.' then [] else [s[|s| - 1]])
  }

  /** A dot-free username is recovered from any of its dotted variants. */
  lemma {:induction false} RemoveDotsDotted(u: string, m: seq<bool>)
    requires |m| == |u| && NoDot(u)
    ensures RemoveDots(Dotted(u, m)) == u
    decreases |u|
  {
    if u != [] {
      var u' := u[..|u| - 1];
      var d' := Dotted(u', m[..|m| - 1]);
      RemoveDotsDotted(u', m[..|m| - 1]);
      var c := u[|u| - 1];
      if m[|m| - 1] {
        assert (d' + "." + [c])[..|d' + "." + [c]| - 1] == d' + ".";
        assert (d' + ".")[..|d' + "."| - 1] == d';
      } else {
        assert (d' + [] + [c])[..|d' + [] + [c]| - 1] == d';
      }
      assert u' + [c] == u;
    }
  }

  /** No dot is the first or the last character, or next to another dot. */
  predicate NoBadDots(s: string) {
    (s != [] ==> s[0] != '.' && s[|s| - 1] != '.')
    && forall i :: 0 <= i < |s| - 1 ==> !(s[i] == '.' && s[i + 1] == '.')
  }

  lemma {:induction false} DottedNoBadDots(u: string, m: seq<bool>)
    requires |m| == |u| && NoDot(u)
    requires |m| > 0 ==> !m[0]
    ensures NoBadDots(Dotted(u, m))
    ensures |u| > 0 ==> |Dotted(u, m)| > 0 && Dotted(u, m)[0] == u[0]
    decreases |u|
  {
    if u != [] {
      var u' := u[..|u| - 1];
      var m' := m[..|m| - 1];
      var d' := Dotted(u', m');
      DottedNoBadDots(u', m');
      var d := Dotted(u, m);
      var c := u[|u| - 1];
      var mid := if m[|m| - 1] then "." else "";
      assert d == d' + mid + [c];
      if u' == [] {
        assert d' == [];
        assert !m[|m| - 1];
        assert d == [c];
      } else {
        assert d'[0] == u'[0] == u[0];
        assert d' != [] && d'[|d'| - 1] != '.';
        forall i | 0 <= i < |d| - 1 ensures !(d[i] == '.' && d[i + 1] == '.') {
          if i < |d'| - 1 {
            assert d[i] == d'[i] && d[i + 1] == d'[i + 1];
          } else if i == |d'| - 1 {
            assert d[i] == d'[|d'| - 1];
          } else {
            assert d[i + 1] == c;
          }
        }
      }
    }
  }

  function TrueCount(m: seq<bool>): (n: nat)
    ensures n <= |m|
  {
    if m == [] then 0 else TrueCount(m[..|m| - 1]) + (if m[|m| - 1] then 1 else 0)
  }

  lemma {:induction false} OccurrencesAppend(a: string, b: string, c: char)
    ensures Occurrences(a + b, c) == Occurrences(a, c) + Occurrences(b, c)
    decreases |a|
  {
    if a != [] {
      OccurrencesAppend(a[1..], b, c);
      assert (a + b)[1..] == a[1..] + b;
    } else {
      assert a + b == b;
    }
  }

  /** The number of dots in a dotted dot-free username is the number of marks. */
  lemma {:induction false} DottedDotCount(u: string, m: seq<bool>)
    requires |m| == |u| && NoDot(u)
    ensures Occurrences(Dotted(u, m), '.') == TrueCount(m)
    decreases |u|
  {
    if u != [] {
      var u' := u[..|u| - 1];
      var m' := m[..|m| - 1];
      DottedDotCount(u', m');
      var mid := if m[|m| - 1] then "." else "";
      var c := u[|u| - 1];
      OccurrencesAppend(Dotted(u', m') + mid, [c], '.');
      OccurrencesAppend(Dotted(u', m'), mid, '.');
      assert Occurrences([c], '.') == 0;
    }
  }

  // ---------------------------------------------------------------------
  // Marks of the strategies

  /** Marks of a set of insertion positions (`random.sample` results). */
  function SetMarks(positions: set<nat>, n: nat): (m: seq<bool>)
    ensures |m| == n && forall j :: 0 <= j < n ==> (m[j] <==> j in positions)
  {
    seq(n, (j: int) => j >= 0 && j as nat in positions)
  }

  lemma {:induction false} SetMarksCount(positions: set<nat>, n: nat)
    ensures TrueCount(SetMarks(positions, n)) == |set j | j in positions && j < n|
  {
    if n > 0 {
      SetMarksCount(positions, n - 1);
      assert SetMarks(positions, n)[..n - 1] == SetMarks(positions, n - 1);
      var below := set j | j in positions && j < n - 1;
      var upto := set j | j in positions && j < n;
      if n - 1 in positions {
        assert upto == below + {n - 1};
      } else {
        assert upto == below;
      }
    } else {
      assert (set j | j in positions && j < n) == {};
    }
  }

  /** Marking one more position is taking it into the set. */
  lemma SetMarksAdd(positions: set<nat>, pos: nat, n: nat)
    requires pos < n
    ensures SetMarks(positions, n)[pos := true] == SetMarks(positions + {pos}, n)
  {
    var l, r := SetMarks(positions, n)[pos := true], SetMarks(positions + {pos}, n);
    assert |l| == |r|;
    forall j | 0 <= j < n ensures l[j] == r[j] {
      if j == pos {
        assert l[j] && r[j];
      } else {
        assert l[j] == SetMarks(positions, n)[j];
      }
    }
  }

  /** Every sampled position is inside the username, so the dot count is
      the sample size. */
  lemma SampleDotCount(u: string, positions: set<nat>)
    requires NoDot(u) && forall p :: p in positions ==> 1 <= p < |u|
    ensures Occurrences(Dotted(u, SetMarks(positions, |u|)), '.') == |positions|
  {
    DottedDotCount(u, SetMarks(positions, |u|));
    SetMarksCount(positions, |u|);
    assert (set j | j in positions && j < |u|) == positions;
  }

  /** A dot between every two characters (complex strategy, fewer than four). */
  function BetweenAllMarks(n: nat): (m: seq<bool>)
    ensures |m| == n && forall j :: 0 <= j < n ==> (m[j] <==> j >= 1)
  {
    seq(n, (j: int) => j >= 1)
  }

  /** `_pattern_every_two_chars`: a dot after every second character. */
  function EveryTwoMarks(n: nat): (m: seq<bool>)
    ensures |m| == n && forall j :: 0 <= j < n ==> (m[j] <==> j >= 1 && j % 2 == 0)
  {
    seq(n, (j: int) => j >= 1 && j % 2 == 0)
  }

  /** `_pattern_alternating`: a dot after every character at an even index. */
  function AlternatingMarks(n: nat): (m: seq<bool>)
    ensures |m| == n && forall j :: 0 <= j < n ==> (m[j] <==> j % 2 == 1)
  {
    seq(n, (j: int) => j % 2 == 1)
  }

  /** `_pattern_front_heavy`: dots before `chars[1]` .. `chars[n // 2]`. */
  function FrontHeavyMarks(n: nat): (m: seq<bool>)
    ensures |m| == n && forall j :: 0 <= j < n ==> (m[j] <==> 1 <= j <= n / 2)
  {
    seq(n, (j: int) => 1 <= j <= n / 2)
  }

  /** `_pattern_back_heavy`: dots before every character past `n // 2`. */
  function BackHeavyMarks(n: nat): (m: seq<bool>)
    ensures |m| == n && forall j :: 0 <= j < n ==> (m[j] <==> j > n / 2)
  {
    seq(n, (j: int) => j > n / 2)
  }

  /** `_pattern_middle_heavy`: a dot after each index `i` with
      `n // 3 <= i < 2 * n // 3`, except after the last character. */
  function MiddleHeavyMarks(n: nat): (m: seq<bool>)
    ensures |m| == n && forall j :: 0 <= j < n ==> (m[j] <==> j >= 1 && n / 3 <= j - 1 < 2 * n / 3)
  {
    seq(n, (j: int) => j >= 1 && n / 3 <= j - 1 < 2 * n / 3)
  }

  /** `format(k, 'b')`. */
  function Binary(k: nat): (r: string)
    ensures |r| > 0 && forall i :: 0 <= i < |r| ==> r[i] == '0' || r[i] == '1'
  {
    if k < 2 then [DigitChar(k)] else Binary(k / 2) + [DigitChar(k % 2)]
  }

  /** `format(k, f'0{w}b')`: binary, left-padded with zeros to width `w`
      and never truncated. */
  function PaddedBinary(k: nat, w: int): (r: string)
    ensures |r| >= w && |r| >= |Binary(k)|
    ensures r[|r| - |Binary(k)|..] == Binary(k)
    ensures forall i :: 0 <= i < |r| - |Binary(k)| ==> r[i] == '0'
  {
    Repeat('0', w - |Binary(k)|) + Binary(k)
  }

  /** `_generate_systematic_dots`: a dot before `chars[i + 1]` iff bit `i`
      of the padded binary is '1'; bits past the username are ignored. */
  function SystematicMarks(bits: string, n: nat): (m: seq<bool>)
    requires |bits| >= n - 1
    ensures |m| == n && forall j :: 0 <= j < n ==> (m[j] <==> j >= 1 && bits[j - 1] == '1')
  {
    seq(n, (j: int) requires 0 <= j < n => j >= 1 && bits[j - 1] == '1')
  }

  const PATTERN_COUNT := 5

  /** The five patterns of `_generate_maximum_dots`, in list order. */
  function PatternMarks(pattern: nat, n: nat): (m: seq<bool>)
    requires pattern < PATTERN_COUNT
    ensures |m| == n && (n > 0 ==> !m[0])
  {
    if pattern == 0 then EveryTwoMarks(n)
    else if pattern == 1 then AlternatingMarks(n)
    else if pattern == 2 then FrontHeavyMarks(n)
    else if pattern == 3 then BackHeavyMarks(n)
    else MiddleHeavyMarks(n)
  }

  // ---------------------------------------------------------------------
  // The strategies as the source runs them

  /** The largest element of a non-empty finite set. */
  ghost function MaxOf(s: set<nat>): (x: nat)
    requires s != {}
    ensures x in s && forall z :: z in s ==> z <= x
    decreases |s|
  {
    var y :| y in s;
    var others := s - {y};
    assert forall z :: z in s ==> z == y || z in others;
    if others == {} then y
    else
      var rest := MaxOf(others);
      if rest < y then y else rest
  }

  /** One step of the insertion loop: inserting a position below all those
      already done marks it. */
  lemma InsertBelowDone(u: string, done: set<nat>, pos: nat, chars: string)
    requires pos < |u| && forall p :: p in done ==> pos < p
    requires chars == Dotted(u, SetMarks(done, |u|))
    ensures pos <= |chars|
    ensures chars[..pos] + ['.'] + chars[pos..] == Dotted(u, SetMarks(done + {pos}, |u|))
  {
    var m := SetMarks(done, |u|);
    assert pos <= |chars| && chars[..pos] + ['.'] + chars[pos..] == Dotted(u, m[pos := true]) by {
      forall j | 0 <= j <= pos ensures !m[j] {
        assert j in done ==> pos < j;
      }
      InsertDot(u, m, pos);
    }
    SetMarksAdd(done, pos, |u|);
  }

  /** Taking the largest remaining position keeps every remaining position
      below every position done. */
  lemma TakeLargest(positions: set<nat>, remaining: set<nat>, pos: nat)
    requires remaining <= positions && pos in remaining
    requires forall q :: q in remaining ==> q <= pos
    requires forall p, q :: p in remaining && q in positions - remaining ==> p < q
    ensures forall p :: p in positions - remaining ==> pos < p
    ensures positions - (remaining - {pos}) == (positions - remaining) + {pos}
    ensures forall p, q :: p in remaining - {pos} && q in positions - (remaining - {pos}) ==> p < q
  {
    forall p, q | p in remaining - {pos} && q in positions - (remaining - {pos}) ensures p < q {
      if q != pos {
        assert q in positions - remaining;
      }
    }
  }

  /** `for pos in sorted(dot_positions, reverse=True): chars.insert(pos, '.')`. */
  method InsertDots(u: string, positions: set<nat>) returns (chars: string)
    requires forall p :: p in positions ==> 1 <= p < |u|
    ensures chars == Dotted(u, SetMarks(positions, |u|))
  {
    chars := u;
    var remaining := positions;
    assert positions - remaining == {};
    DottedNoMarks(u, SetMarks({}, |u|));
    while remaining != {}
      invariant remaining <= positions
      invariant forall p, q :: p in remaining && q in positions - remaining ==> p < q
      invariant chars == Dotted(u, SetMarks(positions - remaining, |u|))
      decreases |remaining|
    {
      ghost var largest := MaxOf(remaining);
      var pos :| pos in remaining && forall q :: q in remaining ==> q <= pos;
      ghost var done := positions - remaining;
      TakeLargest(positions, remaining, pos);
      InsertBelowDone(u, done, pos, chars);
      chars := chars[..pos] + ['.'] + chars[pos..];
      remaining := remaining - {pos};
    }
    assert positions - remaining == positions;
  }

  /** The "append the character, then maybe a dot" loops leave `Pending`
      for the next character, which completes `Dotted` one step further. */
  lemma AfterStep(u: string, m: seq<bool>, i: nat, r: string)
    requires |m| == |u| && i < |u|
    requires r == Dotted(u[..i], m[..i]) + Pending(m, i)
    ensures r + [u[i]] + Pending(m, i + 1) == Dotted(u[..i + 1], m[..i + 1]) + Pending(m, i + 1)
  {
    DottedStep(u, m, i);
  }

  lemma AfterDone(u: string, m: seq<bool>, r: string)
    requires |m| == |u|
    requires r == Dotted(u[..|u|], m[..|u|]) + Pending(m, |u|)
    ensures r == Dotted(u, m)
  {
    assert u[..|u|] == u && m[..|u|] == m;
  }

  /** `_generate_complex_dots` below four characters: a dot between every
      two characters. */
  method JoinWithDots(chars: string) returns (r: string)
    ensures r == Dotted(chars, BetweenAllMarks(|chars|))
  {
    ghost var m := BetweenAllMarks(|chars|);
    r := [];
    var i := 0;
    while i < |chars|
      invariant 0 <= i <= |chars|
      invariant r == Dotted(chars[..i], m[..i]) + Pending(m, i)
    {
      AfterStep(chars, m, i, r);
      r := r + [chars[i]];
      if i < |chars| - 1 {
        r := r + ['.'];
      }
      i := i + 1;
    }
    AfterDone(chars, m, r);
  }

  method PatternEveryTwoChars(chars: string) returns (r: string)
    ensures r == Dotted(chars, EveryTwoMarks(|chars|))
  {
    ghost var m := EveryTwoMarks(|chars|);
    r := [];
    var i := 0;
    while i < |chars|
      invariant 0 <= i <= |chars|
      invariant r == Dotted(chars[..i], m[..i]) + Pending(m, i)
    {
      AfterStep(chars, m, i, r);
      r := r + [chars[i]];
      if (i + 1) % 2 == 0 && i < |chars| - 1 {
        r := r + ['.'];
      }
      i := i + 1;
    }
    AfterDone(chars, m, r);
  }

  method PatternAlternating(chars: string) returns (r: string)
    ensures r == Dotted(chars, AlternatingMarks(|chars|))
  {
    ghost var m := AlternatingMarks(|chars|);
    r := [];
    var i := 0;
    while i < |chars|
      invariant 0 <= i <= |chars|
      invariant r == Dotted(chars[..i], m[..i]) + Pending(m, i)
    {
      AfterStep(chars, m, i, r);
      r := r + [chars[i]];
      if i % 2 == 0 && i < |chars| - 1 {
        r := r + ['.'];
      }
      i := i + 1;
    }
    AfterDone(chars, m, r);
  }

  method PatternMiddleHeavy(chars: string) returns (r: string)
    ensures r == Dotted(chars, MiddleHeavyMarks(|chars|))
  {
    ghost var m := MiddleHeavyMarks(|chars|);
    r := [];
    var length := |chars|;
    var start := length / 3;
    var end := 2 * length / 3;
    var i := 0;
    while i < |chars|
      invariant 0 <= i <= |chars|
      invariant r == Dotted(chars[..i], m[..i]) + Pending(m, i)
    {
      AfterStep(chars, m, i, r);
      r := r + [chars[i]];
      if start <= i < end && i < |chars| - 1 {
        r := r + ['.'];
      }
      i := i + 1;
    }
    AfterDone(chars, m, r);
  }

  /** `result = [chars[0]]`: one character is dotted already. */
  lemma FirstChar(u: string, m: seq<bool>)
    requires |m| == |u| && |u| > 0 && !m[0]
    ensures Dotted(u[..1], m[..1]) == [u[0]]
  {
    DottedStep(u, m, 0);
  }

  lemma FullPrefix(u: string, m: seq<bool>)
    requires |m| == |u|
    ensures Dotted(u[..|u|], m[..|u|]) == Dotted(u, m)
  {
    assert u[..|u|] == u && m[..|u|] == m;
  }

  /** `_pattern_front_heavy`; `chars[0]` fails on an empty username. */
  method PatternFrontHeavy(chars: string) returns (r: Option<string>)
    ensures chars == [] <==> r.None?
    ensures r.Some? ==> r.value == Dotted(chars, FrontHeavyMarks(|chars|))
  {
    if chars == [] {
      return None;
    }
    ghost var m := FrontHeavyMarks(|chars|);
    var result := [chars[0]];
    FirstChar(chars, m);
    var middle := |chars| / 2;
    var i := 1;
    while i < |chars|
      invariant 1 <= i <= |chars|
      invariant result == Dotted(chars[..i], m[..i])
    {
      DottedStep(chars, m, i);
      if i <= middle {
        result := result + ['.'];
      }
      result := result + [chars[i]];
      i := i + 1;
    }
    FullPrefix(chars, m);
    r := Some(result);
  }

  /** `_pattern_back_heavy`; `chars[0]` fails on an empty username. */
  method PatternBackHeavy(chars: string) returns (r: Option<string>)
    ensures chars == [] <==> r.None?
    ensures r.Some? ==> r.value == Dotted(chars, BackHeavyMarks(|chars|))
  {
    if chars == [] {
      return None;
    }
    ghost var m := BackHeavyMarks(|chars|);
    var result := [chars[0]];
    FirstChar(chars, m);
    var middle := |chars| / 2;
    var i := 1;
    while i < |chars|
      invariant 1 <= i <= |chars|
      invariant result == Dotted(chars[..i], m[..i])
    {
      DottedStep(chars, m, i);
      if i > middle {
        result := result + ['.'];
      }
      result := result + [chars[i]];
      i := i + 1;
    }
    FullPrefix(chars, m);
    r := Some(result);
  }

  /** One bit of the systematic loop: a dot when the bit is '1', then the
      next character, while characters are left. */
  lemma SystematicStep(chars: string, binary: string, i: nat, before: string, result: string)
    requires 0 < |chars| && |binary| >= |chars| - 1 && i < |binary|
    requires before == Dotted(chars[..Min(i + 1, |chars|)], SystematicMarks(binary, |chars|)[..Min(i + 1, |chars|)])
    requires i + 1 < |chars| ==> result == before + (if binary[i] == '1' then "." else "") + [chars[i + 1]]
    requires i + 1 >= |chars| ==> result == before
    ensures result == Dotted(chars[..Min(i + 2, |chars|)], SystematicMarks(binary, |chars|)[..Min(i + 2, |chars|)])
  {
    if i + 1 < |chars| {
      DottedStep(chars, SystematicMarks(binary, |chars|), i + 1);
    }
  }

  /** `_generate_systematic_dots` on the username; an empty username
      fails (`chars[0]`). */
  method SystematicDots(chars: string, sequence: nat) returns (r: Option<string>)
    ensures chars == [] <==> r.None?
    ensures r.Some? ==>
      r.value == Dotted(chars, SystematicMarks(PaddedBinary(sequence, |chars| - 1), |chars|))
  {
    if chars == [] {
      return None;
    }
    var binary := PaddedBinary(sequence, |chars| - 1);
    var result := DotsByBits(chars, binary);
    r := Some(result);
  }

  /** The loop of `_generate_systematic_dots` over the bits. */
  method DotsByBits(chars: string, binary: string) returns (result: string)
    requires 0 < |chars| && |binary| >= |chars| - 1
    ensures result == Dotted(chars, SystematicMarks(binary, |chars|))
  {
    var n := |chars|;
    ghost var m := SystematicMarks(binary, n);
    result := [chars[0]];
    FirstChar(chars, m);
    var i := 0;
    while i < |binary|
      invariant 0 <= i <= |binary|
      invariant result == Dotted(chars[..Min(i + 1, n)], m[..Min(i + 1, n)])
    {
      ghost var before := result;
      if binary[i] == '1' && i + 1 < n {
        result := result + ['.'];
      }
      if i + 1 < n {
        result := result + [chars[i + 1]];
      }
      SystematicStep(chars, binary, i, before, result);
      i := i + 1;
    }
    FullPrefix(chars, m);
  }

  function Min(a: int, b: int): int { if a <= b then a else b }

  // ---------------------------------------------------------------------
  // Draws and the per-attempt specification

  /** What one attempt draws: the `random.sample` positions (simple and
      complex strategies), the `random.choice` pattern index (maximum
      strategy) and the clock in milliseconds (simple strategy, short
      usernames). */
  datatype DotDraw = DotDraw(positions: set<nat>, pattern: nat, clockMs: nat)

  /** The draws `random` can produce for attempt `k` on a username of
      length `n`. */
  predicate ValidDraw(k: nat, n: nat, d: DotDraw) {
    (forall p :: p in d.positions ==> 1 <= p < n)
    && (k < 20 && n >= 3 ==> 2 <= |d.positions| <= Min(3, n - 1))
    && (20 <= k < 50 && n >= 4 ==> Min(n / 2, n - 1) / 2 <= |d.positions| <= Min(n / 2, n - 1))
    && d.pattern < PATTERN_COUNT
  }

  /** The last `k` characters of `str(ms)`. */
  function LastDigits(ms: nat, k: nat): (r: string)
    ensures |r| <= k && AllDigits(r)
  {
    var s := NatToString(ms);
    if |s| <= k then s else s[|s| - k..]
  }

  /** The local part attempt `k` builds, or `None` where the source raises
      `IndexError` (front- or back-heavy pattern, or the systematic
      strategy, on an empty username). */
  function AttemptLocal(k: nat, u: string, d: DotDraw): Option<string>
    requires d.pattern < PATTERN_COUNT
  {
    var n := |u|;
    if k < 20 then
      if n < 3 then Some(u + "." + LastDigits(d.clockMs, 4))
      else Some(Dotted(u, SetMarks(d.positions, n)))
    else if k < 50 then
      if n < 4 then Some(Dotted(u, BetweenAllMarks(n)))
      else Some(Dotted(u, SetMarks(d.positions, n)))
    else if k < 80 then
      if n == 0 && (d.pattern == 2 || d.pattern == 3) then None
      else Some(Dotted(u, PatternMarks(d.pattern, n)))
    else if n == 0 then None
    else Some(Dotted(u, SystematicMarks(PaddedBinary(k - 80, n - 1), n)))
  }

  /** Every variant a strategy builds from a dot-free username, other than
      the short-username timestamp form, gives the username back when its
      dots are removed and has no leading, trailing or doubled dot; the
      simple and complex strategies insert exactly their sample's size of
      dots, so between 2 and min(3, n - 1), and between max_dots // 2 and
      max_dots. */
  lemma AttemptShape(k: nat, u: string, d: DotDraw)
    requires ValidDraw(k, |u|, d) && NoDot(u)
    requires AttemptLocal(k, u, d).Some?
    requires k < 20 ==> |u| >= 3
    ensures RemoveDots(AttemptLocal(k, u, d).value) == u
    ensures NoBadDots(AttemptLocal(k, u, d).value)
    ensures k < 20 ==>
      2 <= Occurrences(AttemptLocal(k, u, d).value, '.') <= Min(3, |u| - 1)
    ensures 20 <= k < 50 && |u| >= 4 ==>
      Min(|u| / 2, |u| - 1) / 2 <= Occurrences(AttemptLocal(k, u, d).value, '.')
                                 <= Min(|u| / 2, |u| - 1)
    ensures 20 <= k < 50 && |u| < 4 ==>
      Occurrences(AttemptLocal(k, u, d).value, '.') == if |u| == 0 then 0 else |u| - 1
  {
    var n := |u|;
    var local := AttemptLocal(k, u, d).value;
    if k < 50 && (k < 20 || n >= 4) {
      var m := SetMarks(d.positions, n);
      assert local == Dotted(u, m);
      SampleDotCount(u, d.positions);
      DottedShape(u, m);
    } else if k < 50 {
      var m := BetweenAllMarks(n);
      assert local == Dotted(u, m);
      DottedDotCount(u, m);
      BetweenAllCount(n);
      DottedShape(u, m);
    } else if k < 80 {
      var m := PatternMarks(d.pattern, n);
      assert local == Dotted(u, m);
      DottedShape(u, m);
    } else {
      var m := SystematicMarks(PaddedBinary(k - 80, n - 1), n);
      assert local == Dotted(u, m);
      DottedShape(u, m);
    }
  }

  /** A dotted dot-free username with no mark before its first character
      gives the username back and has no bad dot. */
  lemma DottedShape(u: string, m: seq<bool>)
    requires |m| == |u| && NoDot(u) && (|m| > 0 ==> !m[0])
    ensures RemoveDots(Dotted(u, m)) == u && NoBadDots(Dotted(u, m))
  {
    RemoveDotsDotted(u, m);
    DottedNoBadDots(u, m);
  }

  lemma {:induction false} BetweenAllCount(n: nat)
    ensures TrueCount(BetweenAllMarks(n)) == if n == 0 then 0 else n - 1
  {
    if n > 0 {
      BetweenAllCount(n - 1);
      assert BetweenAllMarks(n)[..n - 1] == BetweenAllMarks(n - 1);
    }
  }

  /** One attempt as the source runs it: the strategy chosen by `k`. */
  method Attempt(k: nat, u: string, d: DotDraw) returns (local: Option<string>)
    requires ValidDraw(k, |u|, d)
    ensures local == AttemptLocal(k, u, d)
  {
    var n := |u|;
    if k < 20 {
      if n < 3 {
        var timestamp := LastDigits(d.clockMs, 4);
        return Some(u + "." + timestamp);
      }
      var chars := InsertDots(u, d.positions);
      return Some(chars);
    } else if k < 50 {
      if n < 4 {
        var chars := JoinWithDots(u);
        return Some(chars);
      }
      var chars := InsertDots(u, d.positions);
      return Some(chars);
    } else if k < 80 {
      if d.pattern == 0 {
        var chars := PatternEveryTwoChars(u);
        local := Some(chars);
      } else if d.pattern == 1 {
        var chars := PatternAlternating(u);
        local := Some(chars);
      } else if d.pattern == 2 {
        local := PatternFrontHeavy(u);
      } else if d.pattern == 3 {
        local := PatternBackHeavy(u);
      } else {
        var chars := PatternMiddleHeavy(u);
        local := Some(chars);
      }
    } else {
      local := SystematicDots(u, k - 80);
    }
  }

  // ---------------------------------------------------------------------
  // The search over attempts

  /** The fallback's draws: the clock in milliseconds and a 3-character
      random suffix. */
  datatype FallbackDraw = FallbackDraw(clockMs: nat, suffix: string)

  function FallbackEmail(u: string, domain: string, f: FallbackDraw): string {
    u + "." + LastDigits(f.clockMs, 6) + "." + f.suffix + "@" + domain
  }

  datatype Pick = Hit(email: string, attempt: nat) | Fallback(email: string)

  /** The local part of every attempt on `u`, by attempt index (a pattern
      index outside `random.choice`'s range is never drawn). */
  function AttemptLocals(u: string, draws: (nat, nat) -> DotDraw): nat -> Option<string> {
    (j: nat) => var d := draws(j, |u|); if d.pattern < PATTERN_COUNT then AttemptLocal(j, u, d) else None
  }

  /** The address `_generate_dot_email` settles on from attempt `k` on,
      given each attempt's local part: the first attempt whose address is
      not in `used`, or the fallback after 100 misses; `None` where an
      attempt raises. */
  function DotSearch(used: set<string>, u: string, domain: string,
                     locals: nat -> Option<string>, f: FallbackDraw, k: nat): Option<Pick>
    decreases MAX_ATTEMPTS - k
  {
    if k >= MAX_ATTEMPTS then Some(Fallback(FallbackEmail(u, domain, f)))
    else match locals(k)
      case None => None
      case Some(local) =>
        if local + "@" + domain !in used then Some(Hit(local + "@" + domain, k))
        else DotSearch(used, u, domain, locals, f, k + 1)
  }

  /** A hit is the address of its own attempt, was not issued before, and
      every earlier attempt from `k` on produced an address already issued. */
  lemma {:induction false} DotSearchHit(used: set<string>, u: string, domain: string,
                                        locals: nat -> Option<string>, f: FallbackDraw,
                                        k: nat, e: string, a: nat)
    requires DotSearch(used, u, domain, locals, f, k) == Some(Hit(e, a))
    ensures k <= a < MAX_ATTEMPTS && e !in used
    ensures locals(a).Some? && e == locals(a).value + "@" + domain
    ensures forall j :: k <= j < a ==> locals(j).Some? && locals(j).value + "@" + domain in used
    decreases MAX_ATTEMPTS - k
  {
    if locals(k).value + "@" + domain in used {
      DotSearchHit(used, u, domain, locals, f, k + 1, e, a);
    }
  }

  /** The fallback is reached only when every attempt from `k` to 99
      produced an address already issued. */
  lemma {:induction false} DotSearchFallback(used: set<string>, u: string, domain: string,
                                             locals: nat -> Option<string>, f: FallbackDraw,
                                             k: nat, e: string)
    requires DotSearch(used, u, domain, locals, f, k) == Some(Fallback(e))
    ensures e == FallbackEmail(u, domain, f)
    ensures forall j :: k <= j < MAX_ATTEMPTS ==> locals(j).Some? && locals(j).value + "@" + domain in used
    decreases MAX_ATTEMPTS - k
  {
    if k < MAX_ATTEMPTS {
      DotSearchFallback(used, u, domain, locals, f, k + 1, e);
    }
  }

  // ---------------------------------------------------------------------
  // Whole-address checks

  /** The first index of `c` in `s`. */
  function IndexOf(s: string, c: char): (i: nat)
    requires c in s
    ensures i < |s| && s[i] == c && c !in s[..i]
  {
    if s[0] == c then 0 else IndexOf(s[1..], c) + 1
  }

  /** Why `generate_email` raises. */
  datatype EmailError =
    | BaseEmailRequired      // "real" without a base address
    | UnsupportedEnvironment // neither "qa" nor "real"
    | NotGmail               // no "@gmail.com" in the lower-cased base address
    | NotOneAt               // `username, domain = base_email.split('@')` does not unpack
    | EmptyUsername          // a pattern indexed `chars[0]` of an empty username

  /** The split of a base address that has exactly one '@'. */
  function Username(base: string): string
    requires Occurrences(base, '@') == 1
  {
    OccurrencesPositive(base, '@');
    base[..IndexOf(base, '@')]
  }

  function Domain(base: string): string
    requires Occurrences(base, '@') == 1
  {
    OccurrencesPositive(base, '@');
    base[IndexOf(base, '@') + 1..]
  }

  lemma {:induction false} OccurrencesPositive(s: string, c: char)
    requires Occurrences(s, c) > 0
    ensures c in s
  {
    if s[0] != c {
      OccurrencesPositive(s[1..], c);
    }
  }

  /** The split is the address: username, '@', domain, neither part holding
      an '@'. */
  lemma SplitAddress(base: string)
    requires Occurrences(base, '@') == 1
    ensures base == Username(base) + "@" + Domain(base)
    ensures '@' !in Username(base) && '@' !in Domain(base)
  {
    OccurrencesPositive(base, '@');
    var i := IndexOf(base, '@');
    assert base == base[..i] + [base[i]] + base[i + 1..];
    OccurrencesAppend(base[..i] + [base[i]], base[i + 1..], '@');
    OccurrencesAppend(base[..i], [base[i]], '@');
    if '@' in base[i + 1..] {
      OccurrencesPositiveConverse(base[i + 1..], '@');
    }
  }

  lemma {:induction false} OccurrencesPositiveConverse(s: string, c: char)
    requires c in s
    ensures Occurrences(s, c) > 0
  {
    if s[0] != c {
      OccurrencesPositiveConverse(s[1..], c);
    }
  }

  /** Every random draw the generator can consume. */
  datatype Entropy = Entropy(
    qaPrefixes: nat -> string,         // successive `_generate_random_string(8)` results
    dotDraws: (nat, nat) -> DotDraw,   // attempt index, username length
    fallback: FallbackDraw)

  ghost predicate ValidEntropy(e: Entropy) {
    (forall k: nat :: IsRandomString(e.qaPrefixes(k), 8))
    && (forall j: nat, n: nat :: ValidDraw(j, n, e.dotDraws(j, n)))
    && IsRandomString(e.fallback.suffix, 3)
  }

  /** The QA loop ends: some drawn prefix gives an address not yet issued.
      (The source redraws without bound; this is what makes it stop.) */
  ghost predicate QaTerminates(used: set<string>, prefixes: nat -> string) {
    exists k: nat :: prefixes(k) + QA_DOMAIN !in used
  }

  /** What `generate_email` makes of any environment but "qa": the error
      it raises, or the dot-email pick. */
  function NonQaSpec(used: set<string>, environment: string, baseEmail: Option<string>,
                     e: Entropy): Result<Pick, EmailError>
    requires environment != "qa" && ValidEntropy(e)
  {
    if environment != "real" then Failure(UnsupportedEnvironment)
    else if !Truthy(baseEmail) then Failure(BaseEmailRequired)
    else if !Contains(Lower(baseEmail.value), GMAIL_DOMAIN) then Failure(NotGmail)
    else if Occurrences(baseEmail.value, '@') != 1 then Failure(NotOneAt)
    else
      var u := Username(baseEmail.value);
      match DotSearch(used, u, Domain(baseEmail.value), AttemptLocals(u, e.dotDraws), e.fallback, 0)
      case None => Failure(EmptyUsername)
      case Some(p) => Success(p)
  }

  /** The three ways a request is refused before any address is built. */
  lemma NonQaRefusals(used: set<string>, environment: string, baseEmail: Option<string>,
                      e: Entropy)
    requires environment != "qa" && ValidEntropy(e)
    ensures environment != "real" <==> NonQaSpec(used, environment, baseEmail, e) == Failure(UnsupportedEnvironment)
    ensures environment == "real" && !Truthy(baseEmail) <==>
      NonQaSpec(used, environment, baseEmail, e) == Failure(BaseEmailRequired)
    ensures environment == "real" && Truthy(baseEmail) && !Contains(Lower(baseEmail.value), GMAIL_DOMAIN) <==>
      NonQaSpec(used, environment, baseEmail, e) == Failure(NotGmail)
  {
  }

  /** A pick keeps the domain and, from a strategy, is an address the set
      did not hold. */
  lemma DotSearchPick(used: set<string>, u: string, domain: string,
                      locals: nat -> Option<string>, f: FallbackDraw, p: Pick)
    requires DotSearch(used, u, domain, locals, f, 0) == Some(p)
    ensures |p.email| > |domain| && p.email[|p.email| - |domain| - 1..] == "@" + domain
    ensures p.Hit? ==> p.email !in used
  {
    if p.Hit? {
      DotSearchHit(used, u, domain, locals, f, 0, p.email, p.attempt);
      assert p.email == locals(p.attempt).value + ("@" + domain);
    } else {
      DotSearchFallback(used, u, domain, locals, f, 0, p.email);
      assert p.email == (u + "." + LastDigits(f.clockMs, 6) + "." + f.suffix) + ("@" + domain);
    }
  }

  // ---------------------------------------------------------------------
  // The generator

  class EmailGenerator {
    /** `used_emails`. */
    var usedEmails: set<string>
    /** A bound replacement of `generate_email` that always answers this
        address (the single-account script's explicit email). */
    var fixedEmail: Option<string>

    constructor ()
      ensures usedEmails == {} && fixedEmail == None
    {
      usedEmails := {};
      fixedEmail := None;
    }

    /** `_generate_qa_email`: redraws the prefix until the address is new,
        then records it. */
    method GenerateQaEmail(prefixes: nat -> string) returns (email: string, index: nat)
      requires QaTerminates(usedEmails, prefixes)
      modifies this
      ensures email == prefixes(index) + QA_DOMAIN
      ensures email !in old(usedEmails)
      ensures forall j :: 0 <= j < index ==> prefixes(j) + QA_DOMAIN in old(usedEmails)
      ensures usedEmails == old(usedEmails) + {email}
      ensures fixedEmail == old(fixedEmail)
    {
      ghost var w: nat :| prefixes(w) + QA_DOMAIN !in usedEmails;
      index := 0;
      email := prefixes(0) + QA_DOMAIN;
      while email in usedEmails
        invariant index <= w
        invariant email == prefixes(index) + QA_DOMAIN
        invariant forall j :: 0 <= j < index ==> prefixes(j) + QA_DOMAIN in usedEmails
        decreases w - index
      {
        index := index + 1;
        email := prefixes(index) + QA_DOMAIN;
      }
      usedEmails := usedEmails + {email};
    }

    /** `_generate_dot_email`, after the Gmail check: up to 100 attempts,
        recording and returning the first address not yet issued, else the
        fallback, recorded without a membership check. */
    method GenerateDotEmail(u: string, domain: string, draws: (nat, nat) -> DotDraw,
                            f: FallbackDraw) returns (r: Option<Pick>)
      requires forall j: nat, n: nat :: ValidDraw(j, n, draws(j, n))
      modifies this
      ensures r == DotSearch(old(usedEmails), u, domain, AttemptLocals(u, draws), f, 0)
      ensures r.Some? ==> usedEmails == old(usedEmails) + {r.value.email}
      ensures r.None? ==> usedEmails == old(usedEmails)
      ensures fixedEmail == old(fixedEmail)
    {
      var attempts := 0;
      while attempts < MAX_ATTEMPTS
        invariant 0 <= attempts <= MAX_ATTEMPTS
        invariant usedEmails == old(usedEmails) && fixedEmail == old(fixedEmail)
        invariant DotSearch(usedEmails, u, domain, AttemptLocals(u, draws), f, 0)
               == DotSearch(usedEmails, u, domain, AttemptLocals(u, draws), f, attempts)
      {
        var local := Attempt(attempts, u, draws(attempts, |u|));
        if local.None? {
          return None;
        }
        var email := local.value + "@" + domain;
        if email !in usedEmails {
          usedEmails := usedEmails + {email};
          return Some(Hit(email, attempts));
        }
        attempts := attempts + 1;
      }
      var timestamp := LastDigits(f.clockMs, 6);
      var fallbackEmail := u + "." + timestamp + "." + f.suffix + "@" + domain;
      usedEmails := usedEmails + {fallbackEmail};
      r := Some(Fallback(fallbackEmail));
    }

    /** `generate_email`. A QA address is always fresh; for "real" the
        result is the dot-email pick, recorded; a refusal records nothing. */
    method GenerateEmail(environment: string, baseEmail: Option<string>, e: Entropy)
      returns (r: Result<string, EmailError>)
      requires ValidEntropy(e)
      requires fixedEmail.None? && environment == "qa" ==> QaTerminates(usedEmails, e.qaPrefixes)
      modifies this
      ensures fixedEmail == old(fixedEmail)
      ensures fixedEmail.Some? ==> r == Success(fixedEmail.value) && usedEmails == old(usedEmails)
      ensures fixedEmail.None? && environment == "qa" ==>
        r.Success? && |r.value| == 8 + |QA_DOMAIN| && IsRandomString(r.value[..8], 8) && r.value[8..] == QA_DOMAIN
        && r.value !in old(usedEmails) && usedEmails == old(usedEmails) + {r.value}
      ensures fixedEmail.None? && environment != "qa" ==>
        var spec := NonQaSpec(old(usedEmails), environment, baseEmail, e);
        (spec.Success? ==> r == Success(spec.value.email) && usedEmails == old(usedEmails) + {r.value})
        && (spec.Failure? ==> r == Failure(spec.error) && usedEmails == old(usedEmails))
    {
      if fixedEmail.Some? {
        return Success(fixedEmail.value);
      }
      if environment == "qa" {
        var email, index := GenerateQaEmail(e.qaPrefixes);
        assert email[..8] == e.qaPrefixes(index);
        return Success(email);
      } else if environment == "real" {
        if !Truthy(baseEmail) {
          return Failure(BaseEmailRequired);
        }
        var base := baseEmail.value;
        if !Contains(Lower(base), GMAIL_DOMAIN) {
          return Failure(NotGmail);
        }
        if Occurrences(base, '@') != 1 {
          return Failure(NotOneAt);
        }
        var pick := GenerateDotEmail(Username(base), Domain(base), e.dotDraws, e.fallback);
        if pick.None? {
          return Failure(EmptyUsername);
        }
        return Success(pick.value.email);
      } else {
        return Failure(UnsupportedEnvironment);
      }
    }

    /** `clear_used_emails`. */
    method ClearUsedEmails()
      modifies this
      ensures usedEmails == {} && fixedEmail == old(fixedEmail)
    {
      usedEmails := {};
    }

    /** `get_used_emails_count`. */
    method GetUsedEmailsCount() returns (n: nat)
      ensures n == |usedEmails|
    {
      n := |usedEmails|;
    }
  }
}
