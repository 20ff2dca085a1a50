/**
 * The correlation helpers of the older single-service version
 * (internal/discordmd/discord.go): getHashFromPrompt with a link pattern
 * bounded by `\b`, getHashFromEmbeds and getHashFromMessage keyed by the
 * FIRST seed of the message, and getIdFromURL, which cuts the file id out
 * of an attachment URL by splitting on `.` and `_` and asks uuid.Parse.
 */
module LegacyParse {
  import opened Wrappers
  import opened GoStrings
  import opened Parse

  // ---------------------------------------------------------------------
  // `--seed\s+(\d+)` with FindStringSubmatch: the leftmost match

  /** The group of the leftmost seed match in `t`, or None when there is none. */
  function FirstSeed(t: string): (r: Option<string>)
    ensures r.Some? ==> |r.value| > 0 && AllDigits(r.value)
    decreases |t|
  {
    if t == [] then None
    else if SeedMatch(t).Some? then Some(SeedMatch(t).value.group)
    else FirstSeed(t[1..])
  }

  /** `i` is where the first match of the seed pattern in `t` starts. */
  predicate IsFirstSeedAt(t: string, i: int) {
    && 0 <= i < |t|
    && SeedMatch(t[i..]).Some?
    && forall j :: 0 <= j < i ==> SeedMatch(t[j..]).None?
  }

  /** FirstSeed reports no seed exactly when there is no match, and otherwise the group of the leftmost one. */
  lemma {:induction false} FirstSeedSpec(t: string)
    ensures FirstSeed(t).None? <==> NoSeedIn(t)
    ensures FirstSeed(t).Some? ==>
      exists i :: IsFirstSeedAt(t, i) && SeedMatch(t[i..]).value.group == FirstSeed(t).value
    decreases |t|
  {
    if t == [] {
    } else if SeedMatch(t).Some? {
      assert t[0..] == t;
      assert IsFirstSeedAt(t, 0);
    } else {
      FirstSeedPastChar(t);
    }
  }

  /** No match at the start: the leftmost match is the one of the rest, one position on. */
  lemma {:induction false} FirstSeedPastChar(t: string)
    requires t != [] && SeedMatch(t).None?
    ensures FirstSeed(t).None? <==> NoSeedIn(t)
    ensures FirstSeed(t).Some? ==>
      exists i :: IsFirstSeedAt(t, i) && SeedMatch(t[i..]).value.group == FirstSeed(t).value
    decreases |t|, 0
  {
    var rest := t[1..];
    FirstSeedSpec(rest);
    assert t[0..] == t;
    if NoSeedIn(rest) {
      forall i | 1 <= i < |t| ensures SeedMatch(t[i..]).None? {
        assert t[i..] == rest[i - 1..];
      }
    } else {
      var i :| IsFirstSeedAt(rest, i) && SeedMatch(rest[i..]).value.group == FirstSeed(rest).value;
      assert t[i + 1..] == rest[i..];
      forall j | 1 <= j < i + 1 ensures SeedMatch(t[j..]).None? {
        assert t[j..] == rest[j - 1..];
      }
      assert IsFirstSeedAt(t, i + 1);
    }
  }

  /** With exactly one seed match in the message, the first and the last seed are the same. */
  lemma FirstIsLastWhenUnique(t: string, i: int)
    requires 0 <= i < |t| && SeedMatch(t[i..]).Some?
    requires forall j :: 0 <= j < |t| && j != i ==> SeedMatch(t[j..]).None?
    ensures FirstSeed(t) == Some(SeedMatch(t[i..]).value.group)
    ensures LastSeedFromMessage(t) == FirstSeed(t)
  {
    FirstSeedSpec(t);
    var f :| IsFirstSeedAt(t, f) && SeedMatch(t[f..]).value.group == FirstSeed(t).value;
    assert f == i;
    assert IsLastSeedAt(t, i);
    LastSeedIsLastMatch(t, i);
  }

  // ---------------------------------------------------------------------
  // `\bhttps?://\S+\b`

  /** `\w` of Go's regular-expression syntax: [0-9A-Za-z_]. */
  predicate IsWordChar(c: char) {
    IsDigit(c) || 'a' <= c <= 'z' || 'A' <= c <= 'Z' || c == '_'
  }

  /** `\b` at position `e` of `s`: a word character on exactly one side. */
  predicate BoundaryAt(s: string, e: int)
    requires 0 <= e <= |s|
  {
    (e > 0 && IsWordChar(s[e - 1])) != (e < |s| && IsWordChar(s[e]))
  }

  /** The largest end in (lo, e] at which `\b` holds: where the greedy `\S+\b` backs off to. */
  function LastBoundary(s: string, lo: nat, e: nat): (r: Option<nat>)
    requires lo <= e <= |s|
    ensures r.Some? ==> lo < r.value <= e && BoundaryAt(s, r.value)
    decreases e - lo
  {
    if e == lo then None
    else if BoundaryAt(s, e) then Some(e)
    else LastBoundary(s, lo, e - 1)
  }

  /** The end found is the last boundary: none lies after it, and None means none lies in (lo, e]. */
  lemma {:induction false} LastBoundarySpec(s: string, lo: nat, e: nat)
    requires lo <= e <= |s|
    ensures LastBoundary(s, lo, e).Some? ==> forall k :: LastBoundary(s, lo, e).value < k <= e ==> !BoundaryAt(s, k)
    ensures LastBoundary(s, lo, e).None? ==> forall k :: lo < k <= e ==> !BoundaryAt(s, k)
    decreases e - lo
  {
    if e > lo && !BoundaryAt(s, e) {
      LastBoundarySpec(s, lo, e - 1);
    }
  }

  /** The end of a `\bhttps?://\S+\b` match starting at position `i` of `s`, or None. */
  function WordLinkEnd(s: string, i: nat): (r: Option<nat>)
    requires i <= |s|
    ensures r.Some? ==> i < r.value <= |s|
  {
    if !BoundaryAt(s, i) then None
    else
      var k := SchemeLen(s[i..]);
      if k == 0 then None
      else
        var w := NonSpaceRun(s[i + k..]);
        LastBoundary(s, i + k, i + k + w)
  }

  /** ReplaceAllString from position `i` on: each match becomes `seed`, scanning resumes at its end. */
  function ReplaceWordLinksFrom(s: string, seed: string, i: nat): string
    requires i <= |s|
    decreases |s| - i
  {
    if i == |s| then []
    else match WordLinkEnd(s, i)
      case Some(e) => seed + ReplaceWordLinksFrom(s, seed, e)
      case None => [s[i]] + ReplaceWordLinksFrom(s, seed, i + 1)
  }

  /** getHashFromPrompt of this version. */
  function LegacyHashFromPrompt(md5: Md5, prompt: string, seed: string): (h: string)
    ensures |h| <= 32
  {
    Digest(md5, ReplaceWordLinksFrom(prompt, seed, 0))
  }

  /** Without `http://` or `https://` anywhere, the text is left as it is. */
  lemma {:induction false} ReplaceWordLinksNoLinks(s: string, seed: string, i: nat)
    requires i <= |s| && NoLinks(s)
    ensures ReplaceWordLinksFrom(s, seed, i) == s[i..]
    decreases |s| - i
  {
    if i < |s| {
      assert SchemeLen(s[i..]) == 0;
      ReplaceWordLinksNoLinks(s, seed, i + 1);
      assert s[i..] == [s[i]] + s[i + 1..];
    }
  }

  /** Where no scheme starts, the replacement copies the text through. */
  lemma {:induction false} ReplaceWordLinksSkip(s: string, seed: string, i: nat, j: nat)
    requires i <= j <= |s|
    requires forall k :: i <= k < j ==> SchemeLen(s[k..]) == 0
    ensures ReplaceWordLinksFrom(s, seed, i) == s[i..j] + ReplaceWordLinksFrom(s, seed, j)
    decreases j - i
  {
    if i < j {
      assert SchemeLen(s[i..]) == 0;
      calc {
        ReplaceWordLinksFrom(s, seed, i);
        { assert WordLinkEnd(s, i).None?; }
        [s[i]] + ReplaceWordLinksFrom(s, seed, i + 1);
        { ReplaceWordLinksSkip(s, seed, i + 1, j); }
        [s[i]] + (s[i + 1..j] + ReplaceWordLinksFrom(s, seed, j));
        { assert [s[i]] + s[i + 1..j] == s[i..j]; }
        s[i..j] + ReplaceWordLinksFrom(s, seed, j);
      }
    } else {
      EmptyConcat(ReplaceWordLinksFrom(s, seed, j));
    }
  }

  /**
   * A link between whitespace (or the ends) whose last character is a word
   * character is one whole `\bhttps?://\S+\b` match.
   */
  lemma WordLinkEndAtLink(s: string, p: string, l: string, q: string, e: nat)
    requires s == p + l + q && e == |p| + |l|
    requires p == [] || IsRegexSpace(p[|p| - 1])
    requires IsLink(l) && IsWordChar(l[|l| - 1])
    requires q == [] || IsRegexSpace(q[0])
    ensures WordLinkEnd(s, |p|) == Some(e)
  {
    var k := SchemeLen(l);
    LinkBoundaries(s, p, l, q);
    LinkRuns(s, p, l, q);
    WordLinkEndOf(s, |p|, k, e);
  }

  lemma WordLinkEndOf(s: string, i: nat, k: nat, e: nat)
    requires i + k < e <= |s| && k > 0 && SchemeLen(s[i..]) == k
    requires BoundaryAt(s, i) && BoundaryAt(s, e) && NonSpaceRun(s[i + k..]) == e - i - k
    ensures WordLinkEnd(s, i) == Some(e)
  {
  }

  /** In `p l q`, the scheme of `l` is read at `|p|`, and the non-space run after it ends with `l`. */
  lemma LinkRuns(s: string, p: string, l: string, q: string)
    requires s == p + l + q && IsLink(l)
    requires q == [] || IsRegexSpace(q[0])
    ensures SchemeLen(s[|p|..]) == SchemeLen(l)
    ensures NonSpaceRun(s[|p| + SchemeLen(l)..]) == |l| - SchemeLen(l)
  {
    var k := SchemeLen(l);
    assert s[|p|..] == l + q;
    assert (l + q)[..k] == l[..k];
    assert s[|p| + k..] == l[k..] + q;
    NonSpaceRunWhole(l[k..], q);
  }

  /** `\b` holds at both ends of a link that starts with `h`, ends in a word character and stands between whitespace. */
  lemma LinkBoundaries(s: string, p: string, l: string, q: string)
    requires s == p + l + q
    requires p == [] || IsRegexSpace(p[|p| - 1])
    requires IsLink(l) && IsWordChar(l[|l| - 1])
    requires q == [] || IsRegexSpace(q[0])
    ensures BoundaryAt(s, |p|) && BoundaryAt(s, |p| + |l|)
  {
    assert s[|p|] == l[0] == 'h';
    assert |p| > 0 ==> s[|p| - 1] == p[|p| - 1];
    assert s[|p| + |l| - 1] == l[|l| - 1];
    assert |p| + |l| < |s| ==> s[|p| + |l|] == q[0];
  }

  /** A link-free text ending in whitespace is copied through, whatever follows it. */
  lemma SkipLinkFreePrefix(s: string, p: string, rest: string, seed: string)
    requires s == p + rest
    requires p == [] || IsRegexSpace(p[|p| - 1])
    requires NoLinks(p)
    ensures ReplaceWordLinksFrom(s, seed, 0) == p + ReplaceWordLinksFrom(s, seed, |p|)
  {
    forall k | 0 <= k < |p| ensures SchemeLen(s[k..]) == 0 {
      assert s[k..] == p[k..] + rest;
      SchemeLenAppend(p[k..], rest);
    }
    ReplaceWordLinksSkip(s, seed, 0, |p|);
    assert s[0..|p|] == p;
  }

  /** A link-free suffix is copied through. */
  lemma SkipLinkFreeSuffix(s: string, a: string, q: string, seed: string)
    requires s == a + q
    requires NoLinks(q)
    ensures ReplaceWordLinksFrom(s, seed, |a|) == q
  {
    forall k | |a| <= k < |s| ensures SchemeLen(s[k..]) == 0 {
      assert s[k..] == q[k - |a|..];
    }
    ReplaceWordLinksSkip(s, seed, |a|, |s|);
    assert s[|a|..|s|] == q;
    assert ReplaceWordLinksFrom(s, seed, |s|) == [];
  }

  /**
   * A prompt `p l q` whose one link `l` stands between whitespace and ends
   * in a word character has exactly that link replaced by the seed.
   */
  lemma ReplaceWordLinksAtLink(p: string, l: string, q: string, seed: string)
    requires p == [] || IsRegexSpace(p[|p| - 1])
    requires IsLink(l) && IsWordChar(l[|l| - 1])
    requires q == [] || IsRegexSpace(q[0])
    requires NoLinks(p) && NoLinks(q)
    ensures ReplaceWordLinksFrom(p + l + q, seed, 0) == p + seed + q
  {
    var a, r := p + l, l + q;
    var s := a + q;
    ConcatAssoc(p, l, q);
    assert ReplaceWordLinksFrom(s, seed, |p|) == seed + ReplaceWordLinksFrom(s, seed, |a|) by {
      WordLinkEndAtLink(s, p, l, q, |a|);
      ReplaceAtMatch(s, |p|, |a|, seed);
    }
    assert ReplaceWordLinksFrom(s, seed, 0) == p + ReplaceWordLinksFrom(s, seed, |p|) by {
      SkipLinkFreePrefix(s, p, r, seed);
    }
    SkipLinkFreeSuffix(s, a, q, seed);
    ConcatAssoc(p, seed, q);
  }

  /** A match from `i` to `e` becomes the seed, and the scan resumes at `e`. */
  lemma ReplaceAtMatch(s: string, i: nat, e: nat, seed: string)
    requires i <= |s| && WordLinkEnd(s, i) == Some(e)
    ensures ReplaceWordLinksFrom(s, seed, i) == seed + ReplaceWordLinksFrom(s, seed, e)
  {
  }

  /**
   * Where the two link patterns disagree: a link ending in `/` keeps the
   * `/` under `\bhttps?://\S+\b`, which must end at a word boundary,
   * while `<https?://\S+\>` (AngleLinkTakesTrailingSlash) replaces the
   * whole link.
   */
  lemma WordLinkKeepsTrailingSlash()
    ensures ReplaceWordLinksFrom("http://a/", "1", 0) == "1/"
  {
    var s := "http://a/";
    assert SchemeLen(s) == 7;
    assert s[7..] == "a/";
    assert NonSpaceRun("a/") == 2 by { assert "a/"[1..] == "/"; }
    assert BoundaryAt(s, 0) && !BoundaryAt(s, 9) && BoundaryAt(s, 8);
    assert WordLinkEnd(s, 0) == Some(8);
    assert ReplaceWordLinksFrom(s, "1", 8) == "/";
  }

  /** The same link in angle brackets is replaced whole. */
  lemma AngleLinkTakesTrailingSlash()
    ensures ReplaceAngleLinks("<http://a/>", "1") == "1"
  {
    var t := "<http://a/>";
    assert t[1..] == "http://a/>";
    assert SchemeLen(t[1..]) == 7;
    assert t[8..] == "a/>";
    assert NonSpaceRun("a/>") == 3 by { assert "a/>"[1..] == "/>"; assert "/>"[1..] == ">"; }
    assert t[8..11] == "a/>";
    assert LastGt("a/>") == 2;
    assert AngleLinkLen(t) == 11;
    assert t[11..] == [];
  }

  // ---------------------------------------------------------------------
  // getHashFromMessage and getHashFromEmbeds

  /**
   * getHashFromMessage of this version: the first bold segment, trimmed,
   * with its `<http…>` links replaced by the FIRST seed of the message;
   * ("", "") without a bold segment or a seed.
   */
  function LegacyHashFromMessage(md5: Md5, message: string): (r: (string, string))
    ensures FirstBold(message).None? || NoSeedIn(message) ==> r == ("", "")
    ensures |r.0| <= 32
  {
    match FirstBold(message)
    case None => ("", "")
    case Some(group) =>
      var promptStr := Trim(group);
      FirstSeedSpec(message);
      match FirstSeed(message)
      case None => ("", "")
      case Some(seed) =>
        var replaced := ReplaceAngleLinks(promptStr, seed);
        (Digest(md5, replaced), replaced)
  }

  /** On a message holding one seed match, both versions of getHashFromMessage agree. */
  lemma MessageHashesAgree(md5: Md5, message: string, i: int)
    requires 0 <= i < |message| && SeedMatch(message[i..]).Some?
    requires forall j :: 0 <= j < |message| && j != i ==> SeedMatch(message[j..]).None?
    ensures LegacyHashFromMessage(md5, message) == HashFromMessage(md5, message)
  {
    FirstIsLastWhenUnique(message, i);
  }

  /**
   * getHashFromEmbeds of this version: the first seed of the whole
   * footer; the footer trimmed, its first word dropped, and `<http…>`
   * links in the rest replaced by the seed; "" without a seed or a space.
   */
  function LegacyHashFromEmbeds(md5: Md5, message: string): (h: string)
    ensures NoSeedIn(message) ==> h == ""
    ensures ' ' !in Trim(message) ==> h == ""
    ensures |h| <= 32
  {
    FirstSeedSpec(message);
    match FirstSeed(message)
    case None => ""
    case Some(seed) =>
      var parts := SplitN2(Trim(message));
      if |parts| < 2 then ""
      else Digest(md5, ReplaceAngleLinks(parts[1], seed))
  }

  /**
   * A footer made of a command word and a link-free prompt whose first
   * seed is `seed` hashes like the prompt itself, as Imagine hashed it.
   */
  lemma FooterHashesLikePrompt(md5: Md5, command: string, prompt: string, seed: string)
    requires command != [] && ' ' !in command
    requires prompt != [] && prompt[|prompt| - 1] != ' ' && NoLinks(prompt)
    requires FirstSeed(command + " " + prompt) == Some(seed)
    ensures LegacyHashFromEmbeds(md5, command + " " + prompt) == LegacyHashFromPrompt(md5, prompt, seed)
  {
    FooterParts(command, prompt);
    ReplaceAngleLinksNoLinks(prompt, seed);
    ReplaceWordLinksNoLinks(prompt, seed, 0);
    assert prompt[0..] == prompt;
  }

  /**
   * A failure footer echoes a prompt link `l` as `<l2>`. For a prompt
   * `p l q` whose one link stands between spaces and ends in a word
   * character, the footer `command p <l2> q` hashes like the prompt did.
   */
  lemma FooterWithLinkHashesLikePrompt(md5: Md5, command: string, p: string, l: string, l2: string, q: string, seed: string)
    requires command != [] && ' ' !in command
    requires (p == [] || p[|p| - 1] == ' ') && q != [] && q[0] == ' ' && q[|q| - 1] != ' '
    requires IsLink(l) && IsWordChar(l[|l| - 1]) && IsLink(l2)
    requires NoLinks(p) && NoLinks(q)
    requires FirstSeed(command + " " + (p + "<" + l2 + ">" + q)) == Some(seed)
    ensures LegacyHashFromEmbeds(md5, command + " " + (p + "<" + l2 + ">" + q)) == LegacyHashFromPrompt(md5, p + l + q, seed)
  {
    var e := p + "<" + l2 + ">" + q;
    assert e[|e| - 1] == q[|q| - 1];
    FooterParts(command, e);
    ReplaceAngleLinksAtLink(p, l2, q, seed);
    ReplaceAngleLinksNoLinks(p, seed);
    ReplaceAngleLinksNoLinks(q, seed);
    ReplaceWordLinksAtLink(p, l, q, seed);
  }

  /** A footer `<command> <prompt>` is left alone by Trim and split after the command. */
  lemma FooterParts(command: string, prompt: string)
    requires command != [] && ' ' !in command
    requires prompt != [] && prompt[|prompt| - 1] != ' '
    ensures Trim(command + " " + prompt) == command + " " + prompt
    ensures SplitN2(command + " " + prompt) == [command, prompt]
  {
    var m := command + " " + prompt;
    assert m[0] == command[0] && m[|m| - 1] == prompt[|prompt| - 1];
    TrimUnchangedEnds(m);
    FooterSplit(command, " " + prompt);
    assert m == command + (" " + prompt);
    assert (" " + prompt)[1..] == prompt;
  }

  /** SplitN2 of `command + rest`, `rest` starting with the first space. */
  lemma FooterSplit(command: string, rest: string)
    requires ' ' !in command && rest != [] && rest[0] == ' '
    ensures SplitN2(command + rest) == [command, rest[1..]]
  {
    var m := command + rest;
    IndexOfAbsent(command, ' ');
    IndexOfConcat(command, rest, ' ');
    assert m[..|command|] == command;
    assert m[|command| + 1..] == rest[1..];
  }

  lemma TrimUnchangedEnds(s: string)
    requires s != [] && s[0] != ' ' && s[|s| - 1] != ' '
    ensures Trim(s) == s
  {
  }

  // ---------------------------------------------------------------------
  // getIdFromURL

  /** uuid.Parse succeeding, which the model does not compute. */
  type IsUUID = string -> bool

  /**
   * getIdFromURL: split on `.`, take the second-to-last piece, split it on
   * `_`, and keep the last piece when uuid.Parse accepts it; "" otherwise.
   */
  function GetIdFromURL(isUUID: IsUUID, url: string): (fileId: string)
    ensures fileId != "" ==> isUUID(fileId) && '_' !in fileId && '.' !in fileId
    ensures fileId != "" ==>
      (var p := Split(url, '.');
       |p| >= 2 && (var u := Split(p[|p| - 2], '_'); |u| >= 2 && fileId == u[|u| - 1]))
    ensures '.' !in url ==> fileId == ""
  {
    var dotParts := Split(url, '.');
    SplitPieces(url, '.');
    if |dotParts| < 2 then ""
    else
      var underscoreParts := Split(dotParts[|dotParts| - 2], '_');
      SplitPieces(dotParts[|dotParts| - 2], '_');
      SplitPiecesLack(dotParts[|dotParts| - 2], '_', '.');
      if |underscoreParts| < 2 then ""
      else
        var last := underscoreParts[|underscoreParts| - 1];
        if isUUID(last) then last else ""
  }

  /** Splitting at one separator splits the two sides independently. */
  lemma {:induction false} SplitAtSeparator(x: string, y: string, sep: char)
    ensures Split(x + [sep] + y, sep) == Split(x, sep) + Split(y, sep)
    decreases |x|, 1
  {
    if IndexOf(x, sep) == |x| {
      SplitAtFirstSeparator(x, y, sep);
    } else {
      SplitBeforeSeparator(x, y, sep);
    }
  }

  lemma {:induction false} SplitAtFirstSeparator(x: string, y: string, sep: char)
    requires IndexOf(x, sep) == |x|
    ensures Split(x + [sep] + y, sep) == Split(x, sep) + Split(y, sep)
  {
    var s := x + [sep] + y;
    assert s == x + ([sep] + y);
    IndexOfConcat(x, [sep] + y, sep);
    assert s[..|x|] == x && s[|x| + 1..] == y;
    assert Split(s, sep) == [x] + Split(y, sep);
  }

  lemma {:induction false} SplitBeforeSeparator(x: string, y: string, sep: char)
    requires IndexOf(x, sep) < |x|
    ensures Split(x + [sep] + y, sep) == Split(x, sep) + Split(y, sep)
    decreases |x|, 0
  {
    var i := IndexOf(x, sep);
    var rest := x[i + 1..];
    var t := [sep] + y;
    AssocSep(x, sep, y);
    AssocSep(rest, sep, y);
    FirstSeparatorOfConcat(x, t, sep);
    SplitCons(x + t, sep, x[..i], rest + t);
    SplitCons(x, sep, x[..i], rest);
    SplitAtSeparator(rest, y, sep);
    ConcatAssocSeqs([x[..i]], Split(rest, sep), Split(y, sep));
  }

  lemma AssocSep(a: string, sep: char, y: string)
    ensures a + [sep] + y == a + ([sep] + y)
  {
  }

  /** Split of a text whose first separator closes the piece `head`. */
  lemma SplitCons(s: string, sep: char, head: string, tail: string)
    requires IndexOf(s, sep) == |head| < |s|
    requires s[..|head|] == head && s[|head| + 1..] == tail
    ensures Split(s, sep) == [head] + Split(tail, sep)
  {
  }

  /** The first separator of `x + t` is the first one of `x`, when `x` has one. */
  lemma FirstSeparatorOfConcat(x: string, t: string, sep: char)
    requires IndexOf(x, sep) < |x|
    ensures IndexOf(x + t, sep) == IndexOf(x, sep)
    ensures (x + t)[..IndexOf(x, sep)] == x[..IndexOf(x, sep)]
    ensures (x + t)[IndexOf(x, sep) + 1..] == x[IndexOf(x, sep) + 1..] + t
  {
    var i := IndexOf(x, sep);
    IndexOfConcat(x, t, sep);
    SliceOfConcat(x, t, i + 1);
    SliceOfConcat(x, t, i);
  }

  lemma ConcatAssocSeqs(a: seq<string>, b: seq<string>, c: seq<string>)
    ensures a + (b + c) == (a + b) + c
  {
  }

  /** The first `c` in `x + y` is the first in `x`, or else the first in `y`. */
  lemma {:induction false} IndexOfConcat(x: string, y: string, c: char)
    ensures IndexOf(x + y, c) == if IndexOf(x, c) < |x| then IndexOf(x, c) else |x| + IndexOf(y, c)
  {
    if x == [] {
      assert x + y == y;
    } else if x[0] != c {
      assert (x + y)[1..] == x[1..] + y;
      IndexOfConcat(x[1..], y, c);
    }
  }

  /** Text without the separator extends the last piece. */
  lemma {:induction false} SplitLastPiece(a: string, b: string, sep: char)
    requires sep !in b
    ensures var pa := Split(a, sep); var pab := Split(a + b, sep);
      |pab| == |pa| && pab[|pab| - 1] == pa[|pa| - 1] + b
    decreases |a|, 1
  {
    if IndexOf(a, sep) == |a| {
      IndexOfConcat(a, b, sep);
      IndexOfAbsent(b, sep);
      assert Split(a + b, sep) == [a + b];
    } else {
      SplitLastPieceStep(a, b, sep);
    }
  }

  lemma {:induction false} SplitLastPieceStep(a: string, b: string, sep: char)
    requires sep !in b && IndexOf(a, sep) < |a|
    ensures var pa := Split(a, sep); var pab := Split(a + b, sep);
      |pab| == |pa| && pab[|pab| - 1] == pa[|pa| - 1] + b
    decreases |a|, 0
  {
    var i := IndexOf(a, sep);
    var rest := a[i + 1..];
    FirstSeparatorOfConcat(a, b, sep);
    SplitCons(a + b, sep, a[..i], rest + b);
    SplitCons(a, sep, a[..i], rest);
    SplitLastPiece(rest, b, sep);
  }

  lemma {:induction false} IndexOfAbsent(s: string, c: char)
    requires c !in s
    ensures IndexOf(s, c) == |s|
  {
    if s != [] {
      assert c !in s[1..];
      IndexOfAbsent(s[1..], c);
    }
  }

  /** The piece before the last `.` is the last piece of what precedes it. */
  lemma PieceBeforeExtension(base: string, ext: string)
    requires '.' !in ext
    ensures var p := Split(base + ['.'] + ext, '.'); var q := Split(base, '.');
      |p| >= 2 && p[|p| - 2] == q[|q| - 1]
  {
    SplitAtSeparator(base, ext, '.');
    IndexOfAbsent(ext, '.');
    assert Split(ext, '.') == [ext];
  }

  /** The piece after the last `_` is what follows it. */
  lemma PieceAfterUnderscore(head: string, id: string)
    requires '_' !in id
    ensures var p := Split(head + ['_'] + id, '_'); |p| >= 2 && p[|p| - 1] == id
  {
    SplitAtSeparator(head, id, '_');
    IndexOfAbsent(id, '_');
    assert Split(id, '_') == [id];
  }

  /** getIdFromURL's result, from the two pieces it picks. */
  lemma GetIdFromPieces(isUUID: IsUUID, url: string, piece: string, id: string)
    requires var p := Split(url, '.'); |p| >= 2 && p[|p| - 2] == piece
    requires var u := Split(piece, '_'); |u| >= 2 && u[|u| - 1] == id
    requires isUUID(id)
    ensures GetIdFromURL(isUUID, url) == id
  {
  }

  /** The piece before the extension of `a + tail + "." + ext`, when `tail` holds no `.`. */
  lemma PieceOfName(a: string, tail: string, ext: string)
    requires '.' !in tail && '.' !in ext
    ensures var p := Split((a + tail) + ['.'] + ext, '.'); var q := Split(a, '.');
      |p| >= 2 && p[|p| - 2] == q[|q| - 1] + tail
  {
    PieceBeforeExtension(a + tail, ext);
    SplitLastPiece(a, tail, '.');
  }

  lemma NoDotInTail(id: string)
    requires '.' !in id
    ensures '.' !in "_" + id
  {
    var tail := "_" + id;
    assert forall j :: 0 <= j < |tail| ==> tail[j] == (if j == 0 then '_' else id[j - 1]);
  }

  /**
   * An attachment URL `<anything>_<id>.<extension>`, with a UUID id and no
   * `.` or `_` in the id nor `.` in the extension, yields exactly that id.
   */
  lemma GetIdFromURLOfName(isUUID: IsUUID, a: string, id: string, ext: string)
    requires isUUID(id) && '.' !in id && '_' !in id && '.' !in ext
    ensures GetIdFromURL(isUUID, a + "_" + id + "." + ext) == id
  {
    var q := Split(a, '.');
    var head := q[|q| - 1];
    var tail := "_" + id;
    NoDotInTail(id);
    PieceOfName(a, tail, ext);
    PieceAfterUnderscore(head, id);
    NameShape(a, id, ext, head);
    GetIdFromPieces(isUUID, a + "_" + id + "." + ext, head + ['_'] + id, id);
  }

  lemma NameShape(a: string, id: string, ext: string, head: string)
    ensures a + "_" + id + "." + ext == (a + ("_" + id)) + ['.'] + ext
    ensures head + ("_" + id) == head + ['_'] + id
  {
  }
}
