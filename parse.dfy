/**
 * Correlation keys computed from message text (internal/discordmd/parse.go).
 *
 * Every regular expression of the source is written out as a scanner that
 * follows Go's leftmost-first matching: a function `XxxMatch(t)` or
 * `XxxLen(t)` says whether the pattern matches at the very start of `t`, and
 * a recursive scan tries successive start positions.
 */
module Parse {
  import opened Wrappers
  import opened GoStrings

  /** crypto/md5 followed by encoding/hex, which the model does not compute. */
  type Md5 = string -> string

  /** `hex(md5(s))`, cut to 32 characters as each `getHashFrom*` does. */
  function Digest(md5: Md5, s: string): (h: string)
    ensures |h| <= 32
    ensures |md5(s)| <= 32 ==> h == md5(s)
  {
    var h := md5(s);
    if |h| > 32 then h[..32] else h
  }

  // ---------------------------------------------------------------------
  // Character runs

  /** Length of the leading run of `\s`. */
  function SpaceRun(t: string): (n: nat)
    ensures n <= |t|
    ensures forall i :: 0 <= i < n ==> IsRegexSpace(t[i])
    ensures n < |t| ==> !IsRegexSpace(t[n])
  {
    if t != [] && IsRegexSpace(t[0]) then 1 + SpaceRun(t[1..]) else 0
  }

  /** Length of the leading run of `\d`. */
  function DigitRun(t: string): (n: nat)
    ensures n <= |t|
    ensures forall i :: 0 <= i < n ==> IsDigit(t[i])
    ensures n < |t| ==> !IsDigit(t[n])
  {
    if t != [] && IsDigit(t[0]) then 1 + DigitRun(t[1..]) else 0
  }

  /** Length of the leading run of `\S`. */
  function NonSpaceRun(t: string): (n: nat)
    ensures n <= |t|
    ensures forall i :: 0 <= i < n ==> !IsRegexSpace(t[i])
    ensures n < |t| ==> IsRegexSpace(t[n])
  {
    if t != [] && !IsRegexSpace(t[0]) then 1 + NonSpaceRun(t[1..]) else 0
  }

  lemma {:induction false} NonSpaceRunAppend(a: string, b: string)
    requires |a| > 0 && IsRegexSpace(a[|a| - 1])
    ensures NonSpaceRun(a + b) == NonSpaceRun(a)
  {
    if !IsRegexSpace(a[0]) {
      assert (a + b)[1..] == a[1..] + b;
      NonSpaceRunAppend(a[1..], b);
    }
  }

  lemma {:induction false} NonSpaceRunWhole(a: string, b: string)
    requires forall i :: 0 <= i < |a| ==> !IsRegexSpace(a[i])
    requires b == [] || IsRegexSpace(b[0])
    ensures NonSpaceRun(a + b) == |a|
  {
    if a != [] {
      assert (a + b)[1..] == a[1..] + b;
      NonSpaceRunWhole(a[1..], b);
    }
  }

  lemma {:induction false} DigitRunWhole(a: string, b: string)
    requires AllDigits(a)
    requires b == [] || !IsDigit(b[0])
    ensures DigitRun(a + b) == |a|
  {
    if a != [] {
      assert (a + b)[1..] == a[1..] + b;
      DigitRunWhole(a[1..], b);
    }
  }

  // ---------------------------------------------------------------------
  // `--seed\s+(\d+)`

  /** A match at the start of a text: its length and its first group. */
  datatype Match = Match(len: nat, group: string)

  /** `--seed` at the start of `t`. */
  predicate SeedFlagAt(t: string) {
    |t| >= 6 && t[0] == '-' && t[1] == '-' && t[2] == 's' && t[3] == 'e' && t[4] == 'e' && t[5] == 'd'
  }

  /** A match of `--seed\s+(\d+)` at the start of `t`; the digit run is greedy. */
  function SeedMatch(t: string): (m: Option<Match>)
    ensures m.Some? ==> SeedFlagAt(t) && 7 < m.value.len <= |t|
    ensures m.Some? ==> |m.value.group| > 0 && AllDigits(m.value.group)
  {
    if SeedFlagAt(t) then
      var w := SpaceRun(t[6..]);
      if w == 0 then None
      else
        var d := DigitRun(t[6 + w..]);
        if d == 0 then None else Some(Match(6 + w + d, t[6 + w..6 + w + d]))
    else None
  }

  /** No match of the seed pattern starts inside another match. */
  lemma SeedMatchInside(t: string, k: nat)
    requires SeedMatch(t).Some? && 0 < k < SeedMatch(t).value.len
    ensures SeedMatch(t[k..]).None?
  {
    var w := SpaceRun(t[6..]);
    if k == 1 {
      assert t[k..][1] == t[2];
    } else {
      if 6 <= k < 6 + w {
        assert IsRegexSpace(t[6..][k - 6]);
      } else if 6 + w <= k {
        assert IsDigit(t[6 + w..][k - 6 - w]);
      }
      assert t[k..][0] == t[k];
    }
  }

  predicate NoSeedIn(t: string) {
    forall i :: 0 <= i < |t| ==> SeedMatch(t[i..]).None?
  }

  /** `i` is where the last match of the seed pattern in `t` starts. */
  predicate IsLastSeedAt(t: string, i: int) {
    && 0 <= i < |t|
    && SeedMatch(t[i..]).Some?
    && forall j :: i < j < |t| ==> SeedMatch(t[j..]).None?
  }

  /** regexp.FindAllStringSubmatch from the start of `t`, keeping the last group seen. */
  function LastSeedFrom(t: string, last: Option<string>): Option<string>
    decreases |t|
  {
    if t == [] then last
    else match SeedMatch(t)
      case Some(m) => LastSeedFrom(t[m.len..], Some(m.group))
      case None => LastSeedFrom(t[1..], last)
  }

  /** getLastSeedFromMessage: the digits of the last `--seed <digits>`, or None for `("", false)`. */
  function LastSeedFromMessage(message: string): Option<string> {
    LastSeedFrom(message, None)
  }

  lemma {:induction false} LastSeedFromSpec(t: string, last: Option<string>)
    ensures NoSeedIn(t) ==> LastSeedFrom(t, last) == last
    ensures !NoSeedIn(t) ==>
      exists i :: IsLastSeedAt(t, i) && LastSeedFrom(t, last) == Some(SeedMatch(t[i..]).value.group)
    decreases |t|, 1
  {
    if t == [] {
    } else if SeedMatch(t).Some? {
      LastSeedFromAtMatch(t, last);
    } else {
      LastSeedFromPastChar(t, last);
    }
  }

  /** The last match in a suffix is the last match of the whole text. */
  lemma LastSeedShift(t: string, d: nat, i: int)
    requires d <= |t| && IsLastSeedAt(t[d..], i)
    ensures IsLastSeedAt(t, d + i) && t[d + i..] == t[d..][i..]
  {
    assert t[d + i..] == t[d..][i..];
    forall j | d + i < j < |t| ensures SeedMatch(t[j..]).None? {
      assert t[j..] == t[d..][j - d..];
    }
  }

  /** No match in a suffix means no match from there on. */
  lemma NoSeedShift(t: string, d: nat)
    requires d <= |t| && NoSeedIn(t[d..])
    ensures forall j :: d <= j < |t| ==> SeedMatch(t[j..]).None?
  {
    forall j | d <= j < |t| ensures SeedMatch(t[j..]).None? {
      assert t[j..] == t[d..][j - d..];
    }
  }

  /** A match at the start: the scan resumes after it. */
  lemma {:induction false} LastSeedFromAtMatch(t: string, last: Option<string>)
    requires t != [] && SeedMatch(t).Some?
    ensures !NoSeedIn(t)
    ensures exists i :: IsLastSeedAt(t, i) && LastSeedFrom(t, last) == Some(SeedMatch(t[i..]).value.group)
    decreases |t|, 0
  {
    var m := SeedMatch(t).value;
    var rest := t[m.len..];
    assert LastSeedFrom(t, last) == LastSeedFrom(rest, Some(m.group));
    LastSeedFromSpec(rest, Some(m.group));
    assert t[0..] == t;
    if NoSeedIn(rest) {
      forall k | 0 < k < m.len ensures SeedMatch(t[k..]).None? {
        SeedMatchInside(t, k);
      }
      NoSeedShift(t, m.len);
      assert IsLastSeedAt(t, 0);
    } else {
      var i :| IsLastSeedAt(rest, i) && LastSeedFrom(rest, Some(m.group)) == Some(SeedMatch(rest[i..]).value.group);
      LastSeedShift(t, m.len, i);
    }
  }

  /** No match at the start: the scan moves on by one character. */
  lemma {:induction false} LastSeedFromPastChar(t: string, last: Option<string>)
    requires t != [] && SeedMatch(t).None?
    ensures NoSeedIn(t) ==> LastSeedFrom(t, last) == last
    ensures !NoSeedIn(t) ==>
      exists i :: IsLastSeedAt(t, i) && LastSeedFrom(t, last) == Some(SeedMatch(t[i..]).value.group)
    decreases |t|, 0
  {
    var rest := t[1..];
    assert LastSeedFrom(t, last) == LastSeedFrom(rest, last);
    LastSeedFromSpec(rest, last);
    if NoSeedIn(rest) {
      NoSeedShift(t, 1);
      assert t[0..] == t;
    } else {
      var i :| IsLastSeedAt(rest, i) && LastSeedFrom(rest, last) == Some(SeedMatch(rest[i..]).value.group);
      LastSeedShift(t, 1, i);
    }
  }

  /**
   * getLastSeedFromMessage reports no seed exactly when no `--seed`
   * followed by whitespace and digits occurs; otherwise it returns the
   * non-empty digit run of the last such occurrence.
   */
  lemma LastSeedFromMessageSpec(message: string)
    ensures LastSeedFromMessage(message).None? <==> NoSeedIn(message)
    ensures LastSeedFromMessage(message).Some? ==>
      exists i :: IsLastSeedAt(message, i) && LastSeedFromMessage(message).value == SeedMatch(message[i..]).value.group
    ensures LastSeedFromMessage(message).Some? ==>
      |LastSeedFromMessage(message).value| > 0 && AllDigits(LastSeedFromMessage(message).value)
  {
    LastSeedFromSpec(message, None);
  }

  /** Only one position can be the last match. */
  lemma LastSeedAtUnique(t: string, i: int, j: int)
    requires IsLastSeedAt(t, i) && IsLastSeedAt(t, j)
    ensures i == j
  {
  }

  /** `--seed <digits>` followed by a non-digit or by nothing is a match whose group is the digits. */
  lemma SeedMatchOfFlag(seed: string, rest: string)
    requires |seed| > 0 && AllDigits(seed)
    requires rest == [] || !IsDigit(rest[0])
    ensures var u := "--seed " + seed + rest;
      SeedMatch(u) == Some(Match(7 + |seed|, seed)) && u[7 + |seed|..] == rest
  {
    var u := "--seed " + seed + rest;
    var v := seed + rest;
    assert u[6..] == " " + v;
    assert SpaceRun(" " + v) == 1 by {
      assert (" " + v)[1..] == v;
      assert v[0] == seed[0] && IsDigit(seed[0]);
    }
    assert u[7..] == v;
    DigitRunWhole(seed, rest);
    assert u[7..7 + |seed|] == seed;
  }

  /** A match at the start followed by a text without one is the last match. */
  lemma NoSeedPastMatch(u: string, len: nat, rest: string)
    requires SeedMatch(u).Some? && SeedMatch(u).value.len == len
    requires u[len..] == rest && NoSeedIn(rest)
    ensures IsLastSeedAt(u, 0)
  {
    assert u[0..] == u;
    forall j | 0 < j < |u| ensures SeedMatch(u[j..]).None? {
      if j < len {
        SeedMatchInside(u, j);
      } else {
        assert u[j..] == rest[j - len..];
      }
    }
  }

  /** getLastSeedFromMessage returns the group of the last match. */
  lemma LastSeedIsLastMatch(t: string, p: int)
    requires IsLastSeedAt(t, p)
    ensures LastSeedFromMessage(t) == Some(SeedMatch(t[p..]).value.group)
  {
    LastSeedFromMessageSpec(t);
    var i :| IsLastSeedAt(t, i) && LastSeedFromMessage(t).value == SeedMatch(t[i..]).value.group;
    LastSeedAtUnique(t, i, p);
  }

  /**
   * Any text, then `--seed <digits>`, then a text that starts with no digit
   * and holds no match: getLastSeedFromMessage returns those digits.
   */
  lemma LastSeedBeforeTail(s: string, seed: string, rest: string)
    requires |seed| > 0 && AllDigits(seed)
    requires rest == [] || !IsDigit(rest[0])
    requires NoSeedIn(rest)
    ensures LastSeedFromMessage(s + ("--seed " + seed + rest)) == Some(seed)
  {
    var u := "--seed " + seed + rest;
    var t := s + u;
    SeedMatchOfFlag(seed, rest);
    NoSeedPastMatch(u, 7 + |seed|, rest);
    assert t[|s|..] == u;
    LastSeedShift(t, |s|, 0);
    LastSeedIsLastMatch(t, |s|);
  }

  /** If the text ends with `--seed <digits>`, that run is what getLastSeedFromMessage returns. */
  lemma LastSeedOfSuffix(s: string, seed: string)
    requires |seed| > 0 && AllDigits(seed)
    ensures LastSeedFromMessage(s + "--seed " + seed) == Some(seed)
  {
    var e: string := [];
    LastSeedBeforeTail(s, seed, e);
    assert "--seed " + seed + e == "--seed " + seed;
    ConcatAssoc(s, "--seed ", seed);
  }

  // ---------------------------------------------------------------------
  // `https?:\/\/\S+` and `<https?:\/\/\S+\>`

  /** Length of `https://` or `http://` at the start of `t`, 0 when neither is there. */
  function SchemeLen(t: string): (n: nat)
    ensures n == 0 || n == 7 || n == 8
    ensures n > 0 ==> n <= |t| && forall i :: 0 <= i < n ==> !IsRegexSpace(t[i])
  {
    if |t| >= 8 && t[0] == 'h' && t[1] == 't' && t[2] == 't' && t[3] == 'p'
       && t[4] == 's' && t[5] == ':' && t[6] == '/' && t[7] == '/' then 8
    else if |t| >= 7 && t[0] == 'h' && t[1] == 't' && t[2] == 't' && t[3] == 'p'
       && t[4] == ':' && t[5] == '/' && t[6] == '/' then 7
    else 0
  }

  /** Length of a `https?:\/\/\S+` match at the start of `t`, 0 when there is none. */
  function LinkLen(t: string): (n: nat)
    ensures n <= |t|
  {
    var k := SchemeLen(t);
    if k == 0 then 0
    else
      var w := NonSpaceRun(t[k..]);
      if w == 0 then 0 else k + w
  }

  /** replaceLinks: every `http(s)://` link, up to the next whitespace, becomes `seed`. */
  function ReplaceLinks(message: string, seed: string): string
    decreases |message|
  {
    if message == [] then []
    else
      var n := LinkLen(message);
      if n > 0 then seed + ReplaceLinks(message[n..], seed)
      else [message[0]] + ReplaceLinks(message[1..], seed)
  }

  /** Neither `http://` nor `https://` occurs in `s`. */
  predicate NoLinks(s: string) {
    forall i :: 0 <= i <= |s| ==> SchemeLen(s[i..]) == 0
  }

  /** A link as replaceLinks sees it: a scheme followed by at least one non-space, and no space. */
  predicate IsLink(l: string) {
    && SchemeLen(l) > 0 && |l| > SchemeLen(l)
    && forall i :: 0 <= i < |l| ==> !IsRegexSpace(l[i])
  }

  /** replaceLinks leaves a text without links unchanged. */
  lemma {:induction false} ReplaceLinksNoLinks(s: string, seed: string)
    requires NoLinks(s)
    ensures ReplaceLinks(s, seed) == s
    decreases |s|
  {
    if s != [] {
      assert s[0..] == s;
      assert NoLinks(s[1..]) by {
        forall i | 0 <= i <= |s[1..]| ensures SchemeLen(s[1..][i..]) == 0 {
          assert s[1..][i..] == s[1 + i..];
        }
      }
      ReplaceLinksNoLinks(s[1..], seed);
    }
  }

  /** A scheme cannot run past a whitespace, so text after one does not change it. */
  lemma SchemeLenAppend(x: string, y: string)
    requires |x| > 0 && IsRegexSpace(x[|x| - 1])
    ensures SchemeLen(x + y) == SchemeLen(x)
  {
    if |x| >= 8 {
      assert (x + y)[..8] == x[..8];
    } else {
      assert (x + y)[|x| - 1] == x[|x| - 1];
    }
  }

  /** A link that starts before a space cannot run past it. */
  lemma LinkLenAppend(x: string, y: string)
    requires |x| > 0 && IsRegexSpace(x[|x| - 1])
    ensures LinkLen(x + y) == LinkLen(x) < |x|
  {
    SchemeLenAppend(x, y);
    var k := SchemeLen(x);
    if k > 0 {
      assert k < |x|;
      assert (x + y)[k..] == x[k..] + y;
      NonSpaceRunAppend(x[k..], y);
    }
  }

  /** replaceLinks works independently on both sides of a whitespace. */
  lemma {:induction false} ReplaceLinksAppend(x: string, y: string, seed: string)
    requires x == [] || IsRegexSpace(x[|x| - 1])
    ensures ReplaceLinks(x + y, seed) == ReplaceLinks(x, seed) + ReplaceLinks(y, seed)
    decreases |x|, 1
  {
    if x == [] {
      EmptyConcat(y);
      EmptyConcat(ReplaceLinks(y, seed));
    } else {
      ReplaceLinksAppendStep(x, y, seed);
    }
  }

  lemma {:induction false} ReplaceLinksAppendStep(x: string, y: string, seed: string)
    requires x != [] && IsRegexSpace(x[|x| - 1])
    ensures ReplaceLinks(x + y, seed) == ReplaceLinks(x, seed) + ReplaceLinks(y, seed)
    decreases |x|, 0
  {
    var d, head := ReplaceLinksStep(x, y, seed);
    var rest, tail := ReplaceLinks(x[d..], seed), ReplaceLinks(y, seed);
    ReplaceLinksAppend(x[d..], y, seed);
    ConcatAssoc(head, rest, tail);
    calc {
      ReplaceLinks(x + y, seed);
      head + ReplaceLinks(x[d..] + y, seed);
      head + (rest + tail);
      (head + rest) + tail;
      ReplaceLinks(x, seed) + tail;
    }
  }

  lemma EmptyConcat(y: string)
    ensures [] + y == y
  {
  }

  lemma ConcatAssoc(a: string, b: string, c: string)
    ensures a + (b + c) == (a + b) + c
  {
  }

  /** The first step of replaceLinks on `x + y` consumes the same part of `x` as on `x` alone. */
  lemma ReplaceLinksStep(x: string, y: string, seed: string) returns (d: nat, head: string)
    requires x != [] && IsRegexSpace(x[|x| - 1])
    ensures 0 < d <= |x|
    ensures x[d..] == [] || IsRegexSpace(x[d..][|x[d..]| - 1])
    ensures ReplaceLinks(x + y, seed) == head + ReplaceLinks(x[d..] + y, seed)
    ensures ReplaceLinks(x, seed) == head + ReplaceLinks(x[d..], seed)
  {
    LinkLenAppend(x, y);
    var n := LinkLen(x);
    if n > 0 {
      d, head := n, seed;
    } else {
      d, head := 1, [x[0]];
      assert (x + y)[0] == x[0];
    }
    assert ReplaceLinks(x + y, seed) == head + ReplaceLinks((x + y)[d..], seed);
    SliceOfConcat(x, y, d);
  }

  lemma SliceOfConcat(x: string, y: string, d: nat)
    requires d <= |x|
    ensures (x + y)[d..] == x[d..] + y
    ensures (x + y)[..d] == x[..d]
    ensures d < |x| ==> x[d..][|x[d..]| - 1] == x[|x| - 1]
  {
  }

  lemma LinkLenOfLink(l: string, q: string)
    requires IsLink(l) && (q == [] || IsRegexSpace(q[0]))
    ensures LinkLen(l + q) == |l|
  {
    var k := SchemeLen(l);
    assert (l + q)[..k] == l[..k];
    assert SchemeLen(l + q) == k;
    assert (l + q)[k..] == l[k..] + q;
    NonSpaceRunWhole(l[k..], q);
  }

  /** A whole link between whitespace (or the ends) is replaced by the seed. */
  lemma ReplaceLinksAtLink(p: string, l: string, q: string, seed: string)
    requires p == [] || IsRegexSpace(p[|p| - 1])
    requires IsLink(l)
    requires q == [] || IsRegexSpace(q[0])
    ensures ReplaceLinks(p + l + q, seed) == ReplaceLinks(p, seed) + seed + ReplaceLinks(q, seed)
  {
    assert p + l + q == p + (l + q);
    ReplaceLinksAppend(p, l + q, seed);
    ReplaceLinksLinkFirst(l, q, seed);
    ConcatAssoc(ReplaceLinks(p, seed), seed, ReplaceLinks(q, seed));
  }

  /** A text that starts with a whole link has the link replaced by the seed. */
  lemma ReplaceLinksLinkFirst(l: string, q: string, seed: string)
    requires IsLink(l)
    requires q == [] || IsRegexSpace(q[0])
    ensures ReplaceLinks(l + q, seed) == seed + ReplaceLinks(q, seed)
  {
    LinkLenOfLink(l, q);
    assert (l + q)[|l|..] == q;
  }

  /** Length of the last `>` in `run` that leaves at least one character before it; 0 when none. */
  function LastGt(run: string): (m: nat)
    ensures m < |run| || m == 0
    ensures m > 0 ==> run[m] == '>'
  {
    if |run| <= 1 then 0
    else if run[|run| - 1] == '>' then |run| - 1
    else LastGt(run[..|run| - 1])
  }

  /**
   * Length of a `<https?:\/\/\S+\>` match at the start of `t`, 0 when none:
   * the greedy `\S+` backs off to the last `>` of the non-space run.
   */
  function AngleLinkLen(t: string): (n: nat)
    ensures n <= |t|
    ensures n > 0 ==> t[0] == '<' && SchemeLen(t[1..]) > 0
  {
    if |t| > 0 && t[0] == '<' then
      var k := SchemeLen(t[1..]);
      if k == 0 then 0
      else
        var w := NonSpaceRun(t[1 + k..]);
        var m := LastGt(t[1 + k..1 + k + w]);
        if m == 0 then 0 else 1 + k + m + 1
    else 0
  }

  /** `linkRe.ReplaceAllString(s, seed)` of getHashFromMessage: only `<http…>` links are replaced. */
  function ReplaceAngleLinks(s: string, seed: string): string
    decreases |s|
  {
    if s == [] then []
    else
      var n := AngleLinkLen(s);
      if n > 0 then seed + ReplaceAngleLinks(s[n..], seed)
      else [s[0]] + ReplaceAngleLinks(s[1..], seed)
  }

  lemma {:induction false} ReplaceAngleLinksNoLinks(s: string, seed: string)
    requires NoLinks(s)
    ensures ReplaceAngleLinks(s, seed) == s
    decreases |s|
  {
    if s != [] {
      assert SchemeLen(s[1..]) == 0;
      assert NoLinks(s[1..]) by {
        forall i | 0 <= i <= |s[1..]| ensures SchemeLen(s[1..][i..]) == 0 {
          assert s[1..][i..] == s[1 + i..];
        }
      }
      ReplaceAngleLinksNoLinks(s[1..], seed);
    }
  }

  /** An angle link that starts before a whitespace cannot run past it. */
  lemma AngleLinkLenAppend(x: string, y: string)
    requires |x| > 0 && IsRegexSpace(x[|x| - 1])
    ensures AngleLinkLen(x + y) == AngleLinkLen(x) < |x|
  {
    var t := x + y;
    assert t[0] == x[0];
    if x[0] == '<' {
      assert t[1..] == x[1..] + y;
      SchemeLenAppend(x[1..], y);
      var k := SchemeLen(x[1..]);
      if k > 0 {
        assert k < |x[1..]| by { assert IsRegexSpace(x[1..][|x[1..]| - 1]); }
        assert t[1 + k..] == x[1 + k..] + y;
        NonSpaceRunAppend(x[1 + k..], y);
        var w := NonSpaceRun(x[1 + k..]);
        assert w < |x[1 + k..]|;
        assert t[1 + k..1 + k + w] == x[1 + k..1 + k + w];
      }
    }
  }

  /** The angle-link replacement works independently on both sides of a whitespace. */
  lemma {:induction false} ReplaceAngleLinksAppend(x: string, y: string, seed: string)
    requires x == [] || IsRegexSpace(x[|x| - 1])
    ensures ReplaceAngleLinks(x + y, seed) == ReplaceAngleLinks(x, seed) + ReplaceAngleLinks(y, seed)
    decreases |x|, 1
  {
    if x == [] {
      EmptyConcat(y);
      EmptyConcat(ReplaceAngleLinks(y, seed));
    } else {
      ReplaceAngleLinksAppendStep(x, y, seed);
    }
  }

  lemma {:induction false} ReplaceAngleLinksAppendStep(x: string, y: string, seed: string)
    requires x != [] && IsRegexSpace(x[|x| - 1])
    ensures ReplaceAngleLinks(x + y, seed) == ReplaceAngleLinks(x, seed) + ReplaceAngleLinks(y, seed)
    decreases |x|, 0
  {
    var d, head := ReplaceAngleLinksStep(x, y, seed);
    var rest, tail := ReplaceAngleLinks(x[d..], seed), ReplaceAngleLinks(y, seed);
    ReplaceAngleLinksAppend(x[d..], y, seed);
    ConcatAssoc(head, rest, tail);
    calc {
      ReplaceAngleLinks(x + y, seed);
      head + ReplaceAngleLinks(x[d..] + y, seed);
      head + (rest + tail);
      (head + rest) + tail;
      ReplaceAngleLinks(x, seed) + tail;
    }
  }

  /** The first step of the angle-link replacement on `x + y` consumes the same part of `x` as on `x` alone. */
  lemma ReplaceAngleLinksStep(x: string, y: string, seed: string) returns (d: nat, head: string)
    requires x != [] && IsRegexSpace(x[|x| - 1])
    ensures 0 < d <= |x|
    ensures x[d..] == [] || IsRegexSpace(x[d..][|x[d..]| - 1])
    ensures ReplaceAngleLinks(x + y, seed) == head + ReplaceAngleLinks(x[d..] + y, seed)
    ensures ReplaceAngleLinks(x, seed) == head + ReplaceAngleLinks(x[d..], seed)
  {
    AngleLinkLenAppend(x, y);
    var n := AngleLinkLen(x);
    if n > 0 {
      d, head := n, seed;
    } else {
      d, head := 1, [x[0]];
      assert (x + y)[0] == x[0];
    }
    assert ReplaceAngleLinks(x + y, seed) == head + ReplaceAngleLinks((x + y)[d..], seed);
    SliceOfConcat(x, y, d);
  }

  /** Without a `<`, a text passes through the angle-link replacement unchanged, bare links included. */
  lemma {:induction false} ReplaceAngleLinksNoAngle(x: string, y: string, seed: string)
    requires '<' !in x
    ensures ReplaceAngleLinks(x + y, seed) == x + ReplaceAngleLinks(y, seed)
    decreases |x|
  {
    if x != [] {
      var c, r := x[0], x[1..];
      assert c in x;
      assert '<' !in r by { assert forall i :: 0 <= i < |r| ==> r[i] == x[i + 1]; }
      calc {
        ReplaceAngleLinks(x + y, seed);
        { assert (x + y)[0] == c && (x + y)[1..] == r + y; assert AngleLinkLen(x + y) == 0; }
        [c] + ReplaceAngleLinks(r + y, seed);
        { ReplaceAngleLinksNoAngle(r, y, seed); }
        [c] + (r + ReplaceAngleLinks(y, seed));
        { assert [c] + r == x; }
        x + ReplaceAngleLinks(y, seed);
      }
    } else {
      EmptyConcat(y);
      EmptyConcat(ReplaceAngleLinks(y, seed));
    }
  }

  /** `<` + a link + `>`, followed by whitespace or nothing, is one angle-link match. */
  lemma AngleLinkLenOfLink(l: string, q: string)
    requires IsLink(l) && (q == [] || IsRegexSpace(q[0]))
    ensures AngleLinkLen("<" + l + ">" + q) == |l| + 2
  {
    var t := "<" + l + ">" + q;
    var k := SchemeLen(l);
    assert t[1..] == l + (">" + q);
    assert t[1..][..k] == l[..k];
    assert SchemeLen(t[1..]) == k;
    var run := l[k..] + ">";
    assert forall i :: 0 <= i < |run| ==> !IsRegexSpace(run[i]);
    assert t[1 + k..] == run + q;
    NonSpaceRunWhole(run, q);
    assert t[1 + k..1 + k + |run|] == run;
    assert LastGt(run) == |run| - 1;
  }

  /**
   * An `<http…>` link between whitespace (or the ends) becomes the seed,
   * and the text on either side is replaced independently.
   */
  lemma ReplaceAngleLinksAtLink(p: string, l: string, q: string, seed: string)
    requires p == [] || IsRegexSpace(p[|p| - 1])
    requires IsLink(l)
    requires q == [] || IsRegexSpace(q[0])
    ensures ReplaceAngleLinks(p + "<" + l + ">" + q, seed)
         == ReplaceAngleLinks(p, seed) + seed + ReplaceAngleLinks(q, seed)
  {
    var a := "<" + l + ">" + q;
    assert p + "<" + l + ">" + q == p + a;
    ReplaceAngleLinksAppend(p, a, seed);
    AngleLinkLenOfLink(l, q);
    assert a[|l| + 2..] == q;
    ConcatAssoc(ReplaceAngleLinks(p, seed), seed, ReplaceAngleLinks(q, seed));
  }

  /** A bare link without `<` is left as it is; only the text around it is rewritten. */
  lemma ReplaceAngleLinksKeepsBareLink(p: string, l: string, q: string, seed: string)
    requires p == [] || IsRegexSpace(p[|p| - 1])
    requires IsLink(l) && '<' !in l
    ensures ReplaceAngleLinks(p + l + q, seed) == ReplaceAngleLinks(p, seed) + l + ReplaceAngleLinks(q, seed)
  {
    assert p + l + q == p + (l + q);
    ReplaceAngleLinksAppend(p, l + q, seed);
    ReplaceAngleLinksNoAngle(l, q, seed);
    ConcatAssoc(ReplaceAngleLinks(p, seed), l, ReplaceAngleLinks(q, seed));
  }

  // ---------------------------------------------------------------------
  // `\*{2}(.+?)\*{2}`

  /**
   * The lazy `(.+?)\*{2}` after an opening `**`: the smallest group length
   * j >= 1 followed by `**`, with no newline inside the group.
   */
  function LazyClose(u: string, j: nat): (r: Option<nat>)
    requires 1 <= j
    ensures r.Some? ==> j <= r.value && r.value + 2 <= |u| && u[r.value] == '*' && u[r.value + 1] == '*'
    decreases |u| - j
  {
    if j + 2 > |u| then None
    else if u[j - 1] == '\n' then None
    else if u[j] == '*' && u[j + 1] == '*' then Some(j)
    else LazyClose(u, j + 1)
  }

  /** The group of a `\*{2}(.+?)\*{2}` match at the start of `t`. */
  function BoldAt(t: string): Option<string> {
    if HasPrefix(t, "**") then
      match LazyClose(t[2..], 1)
      case Some(j) => Some(t[2..2 + j])
      case None => None
    else None
  }

  /** regexp.FindStringSubmatch for `\*{2}(.+?)\*{2}`: the group of the leftmost match. */
  function FirstBold(s: string): Option<string>
    decreases |s|
  {
    if s == [] then None
    else if BoldAt(s).Some? then BoldAt(s)
    else FirstBold(s[1..])
  }

  // ---------------------------------------------------------------------
  // The three hashes

  /** getHashFromPrompt: the digest of the prompt with its links replaced by the seed. */
  function HashFromPrompt(md5: Md5, prompt: string, seed: string): (h: string)
    ensures |h| <= 32
  {
    Digest(md5, ReplaceLinks(prompt, seed))
  }

  /** Prompts that differ only in the text of one link hash equally. */
  lemma HashIgnoresLinkText(md5: Md5, p: string, l1: string, l2: string, q: string, seed: string)
    requires p == [] || IsRegexSpace(p[|p| - 1])
    requires IsLink(l1) && IsLink(l2)
    requires q == [] || IsRegexSpace(q[0])
    ensures HashFromPrompt(md5, p + l1 + q, seed) == HashFromPrompt(md5, p + l2 + q, seed)
  {
    ReplaceLinksAtLink(p, l1, q, seed);
    ReplaceLinksAtLink(p, l2, q, seed);
  }

  /**
   * getHashFromEmbeds: drop the first word of a failure footer, then hash
   * the rest, trimmed, with the last seed found in it.
   */
  function HashFromEmbeds(md5: Md5, message: string): (h: string)
    ensures ' ' !in message ==> h == ""
    ensures ' ' in message && LastSeedFromMessage(SplitN2(message)[1]).None? ==> h == ""
    ensures |h| <= 32
  {
    var parts := SplitN2(message);
    if |parts| < 2 then ""
    else
      var rest := parts[1];
      match LastSeedFromMessage(rest)
      case None => ""
      case Some(seed) => Digest(md5, ReplaceLinks(Trim(rest), seed))
  }

  /** For a footer `w rest`, the key is getHashFromPrompt of the trimmed rest and its last seed. */
  lemma HashFromEmbedsOfFooter(md5: Md5, w: string, rest: string)
    requires ' ' !in w
    requires LastSeedFromMessage(rest).Some?
    ensures HashFromEmbeds(md5, w + " " + rest) == HashFromPrompt(md5, Trim(rest), LastSeedFromMessage(rest).value)
  {
    var m := w + " " + rest;
    assert m[|w|] == ' ';
    var parts := SplitN2(m);
    var a := parts[0];
    assert |a| == |w| by {
      assert m[|a|] == ' ';
      assert forall j :: 0 <= j < |w| ==> m[j] == w[j];
      assert forall j :: 0 <= j < |a| ==> m[j] == a[j];
    }
    assert m[|w| + 1..] == rest == parts[1];
  }

  /**
   * getHashFromMessage: the key and the prompt of an inbound message, or
   * ("", "") when the message has no `**…**` segment or no seed.
   */
  function HashFromMessage(md5: Md5, message: string): (r: (string, string))
    ensures |r.0| <= 32
  {
    match FirstBold(message)
    case None => ("", "")
    case Some(group) =>
      var promptStr := Trim(group);
      match LastSeedFromMessage(message)
      case None => ("", "")
      case Some(seed) =>
        var replaced := ReplaceAngleLinks(promptStr, seed);
        (Digest(md5, replaced), replaced)
  }

  /**
   * A message with no `**…**` segment, or with no `--seed` anywhere, has
   * no key; otherwise the key is the digest of the trimmed first bold
   * segment with its `<http…>` links replaced by the last seed.
   */
  lemma HashFromMessageSpec(md5: Md5, message: string)
    ensures FirstBold(message).None? || NoSeedIn(message) ==> HashFromMessage(md5, message) == ("", "")
    ensures FirstBold(message).Some? && !NoSeedIn(message) ==>
      && LastSeedFromMessage(message).Some?
      && var p := ReplaceAngleLinks(Trim(FirstBold(message).value), LastSeedFromMessage(message).value);
      HashFromMessage(md5, message) == (Digest(md5, p), p)
  {
    LastSeedFromMessageSpec(message);
  }

  // ---------------------------------------------------------------------
  // `([a-f\d]{8}(-[a-f\d]{4}){3}-[a-f\d]{12})[^/]*$` and `Image #(\d+)`

  predicate IsLowerHex(c: char) {
    IsDigit(c) || 'a' <= c <= 'f'
  }

  /** The 8-4-4-4-12 lower-case hexadecimal text form of a UUID (RFC 4122, section 3). */
  predicate IsUuidText(u: string) {
    && |u| == 36
    && forall i :: 0 <= i < 36 ==>
         if i == 8 || i == 13 || i == 18 || i == 23 then u[i] == '-' else IsLowerHex(u[i])
  }

  /** A match of the file-id pattern at the start of `t`: a UUID text followed by no `/` up to the end. */
  predicate FileIdAt(t: string) {
    |t| >= 36 && IsUuidText(t[..36]) && '/' !in t[36..]
  }

  /**
   * getFileIdFromURL. The pattern is anchored at the end and its tail
   * swallows the rest of the text, so the leftmost match is the only one
   * FindAllStringSubmatch can return.
   */
  function FileIdFromURL(url: string): (fileId: string)
    ensures fileId == "" || IsUuidText(fileId)
    decreases |url|
  {
    if |url| < 36 then ""
    else if FileIdAt(url) then url[..36]
    else FileIdFromURL(url[1..])
  }

  /** A non-empty file id is a UUID text of the URL after which no `/` follows. */
  lemma {:induction false} FileIdFromURLLocated(url: string)
    ensures var fileId := FileIdFromURL(url);
      fileId == "" || exists i :: 0 <= i <= |url| - 36 && url[i..i + 36] == fileId && '/' !in url[i..]
    decreases |url|
  {
    if |url| < 36 {
    } else if FileIdAt(url) {
      assert url[0..36] == url[..36] && url[0..] == url;
    } else {
      var r := FileIdFromURL(url[1..]);
      FileIdFromURLLocated(url[1..]);
      if r != "" {
        var i :| 0 <= i <= |url[1..]| - 36 && url[1..][i..i + 36] == r && '/' !in url[1..][i..];
        assert url[1 + i..1 + i + 36] == r && url[1 + i..] == url[1..][i..];
      }
    }
  }

  /** The file id is empty exactly when no position of the URL starts a match of the pattern. */
  lemma {:induction false} FileIdFromURLSpec(url: string)
    ensures FileIdFromURL(url) == "" <==> forall i :: 0 <= i <= |url| ==> !FileIdAt(url[i..])
    decreases |url|
  {
    assert url[0..] == url;
    if |url| < 36 {
      assert forall i :: 0 <= i <= |url| ==> |url[i..]| < 36;
    } else if FileIdAt(url) {
      assert |url[..36]| == 36;
    } else {
      FileIdFromURLSpec(url[1..]);
      assert forall i :: 1 <= i <= |url| ==> url[i..] == url[1..][i - 1..];
    }
  }

  /** `Image #(\d+)` at the start of `t`. */
  predicate ImageIndexAt(t: string) {
    HasPrefix(t, "Image #") && DigitRun(t[7..]) > 0
  }

  /** getImageIndexFromMessage: the digits of the leftmost `Image #` followed by a digit, or "" when there is none. */
  function ImageIndexFromMessage(message: string): (index: string)
    ensures index == "" || AllDigits(index)
    decreases |message|
  {
    if message == [] then ""
    else if ImageIndexAt(message) then message[7..7 + DigitRun(message[7..])]
    else ImageIndexFromMessage(message[1..])
  }

  /** The index is empty exactly when no position of the message starts `Image #<digit>`. */
  lemma {:induction false} ImageIndexFromMessageSpec(message: string)
    ensures ImageIndexFromMessage(message) == "" <==> forall i :: 0 <= i <= |message| ==> !ImageIndexAt(message[i..])
    decreases |message|
  {
    assert message[0..] == message;
    if message != [] && !ImageIndexAt(message) {
      ImageIndexFromMessageSpec(message[1..]);
      assert forall i :: 1 <= i <= |message| ==> message[i..] == message[1..][i - 1..];
    }
  }

  /**
   * The index an upscale reply announces is the one requested, provided
   * nothing before the marker contains `#` and no digit follows the number.
   */
  lemma ImageIndexRoundTrip(pre: string, n: nat, post: string)
    requires '#' !in pre
    requires post == [] || !IsDigit(post[0])
    ensures ImageIndexFromMessage(pre + "Image #" + Itoa(n) + post) == Itoa(n)
  {
    var digits := Itoa(n);
    var rest := "Image #" + digits + post;
    Associate(pre, "Image #", digits, post);
    MarkerAt(digits, post);
    NoMarkerBefore(pre, rest);
    ImageIndexScan(pre + rest, |pre|, digits);
  }

  lemma Associate(a: string, b: string, c: string, d: string)
    ensures a + b + c + d == a + (b + c + d)
    ensures (a + (b + c + d))[|a|..] == b + c + d
  {
  }

  /** `Image #<digits>` followed by a non-digit is a match whose group is the digits. */
  lemma MarkerAt(digits: string, post: string)
    requires |digits| > 0 && AllDigits(digits)
    requires post == [] || !IsDigit(post[0])
    ensures var rest := "Image #" + digits + post;
      ImageIndexAt(rest) && rest[7..7 + DigitRun(rest[7..])] == digits
  {
    var rest := "Image #" + digits + post;
    assert rest[..7] == "Image #";
    assert rest[7..] == digits + post;
    DigitRunWhole(digits, post);
    assert rest[7..7 + |digits|] == digits;
  }

  /** No match starts inside a text without `#` that runs into `Image #`. */
  lemma NoMarkerBefore(pre: string, rest: string)
    requires '#' !in pre && HasPrefix(rest, "Image #")
    ensures forall i :: 0 <= i < |pre| ==> !ImageIndexAt((pre + rest)[i..])
  {
    var m := pre + rest;
    forall i | 0 <= i < |pre| ensures !ImageIndexAt(m[i..]) {
      if |m[i..]| >= 7 {
        assert m[i..][6] == m[i + 6];
        if i + 6 < |pre| {
          assert m[i + 6] == pre[i + 6];
        } else {
          assert m[i + 6] == rest[i + 6 - |pre|] == "Image #"[i + 6 - |pre|];
        }
        assert m[i..][..7][6] == m[i + 6];
      }
    }
  }

  lemma {:induction false} ImageIndexScan(m: string, p: nat, digits: string)
    requires p < |m| && ImageIndexAt(m[p..])
    requires m[p..][7..7 + DigitRun(m[p..][7..])] == digits
    requires forall i :: 0 <= i < p ==> !ImageIndexAt(m[i..])
    ensures ImageIndexFromMessage(m) == digits
    decreases p
  {
    if p == 0 {
      assert m[0..] == m;
    } else {
      assert m[0..] == m;
      assert m[1..][p - 1..] == m[p..];
      forall i | 0 <= i < p - 1 ensures !ImageIndexAt(m[1..][i..]) {
        assert m[1..][i..] == m[i + 1..];
      }
      ImageIndexScan(m[1..], p - 1, digits);
    }
  }
}
