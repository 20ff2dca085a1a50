/**
 * The prompt normalisation that Imagine performs before hashing
 * (internal/discordmd/service_interaction.go, interaction.go and discord.go
 * share it), and the correlation it makes possible: the upstream service
 * echoes the normalised prompt back, in a failure footer or in bold in the
 * origin-image message, and hashing the echo gives back the task id.
 */
module Prompt {
  import opened Wrappers
  import opened GoStrings
  import opened Parse

  /**
   * `params += " --seed " + seed`, then
   * `Join(Fields(Trim(Trim(prompt, " ") + " " + params, " ")), " ")`, then
   * every `—` becomes `--`.
   */
  function NormalizePrompt(prompt: string, params: string, seed: string): string {
    ReplaceEmDash(Join(PromptWords(prompt, params, seed), " "))
  }

  /** The words of the prompt with the seed parameter appended, before they are joined. */
  function PromptWords(prompt: string, params: string, seed: string): seq<string> {
    var withSeed := params + " --seed " + seed;
    Fields(Trim(Trim(prompt) + " " + withSeed))
  }

  /** The task id Imagine computes: getHashFromPrompt of the normalised prompt and the seed. */
  function ImagineTaskId(md5: Md5, prompt: string, params: string, seed: string): (taskId: string)
    ensures |taskId| <= 32
  {
    HashFromPrompt(md5, NormalizePrompt(prompt, params, seed), seed)
  }

  /** The seed Imagine draws: strconv.Itoa of a value below math.MaxUint32. */
  predicate IsDrawnSeed(seed: string) {
    exists n: nat :: n < 0xFFFF_FFFF && seed == Itoa(n)
  }

  // ---------------------------------------------------------------------
  // Helpers on Join and ReplaceEmDash

  function MapReplaceEmDash(ws: seq<string>): (r: seq<string>)
    ensures |r| == |ws|
    ensures forall k :: 0 <= k < |ws| ==> r[k] == ReplaceEmDash(ws[k])
  {
    if ws == [] then [] else MapReplaceEmDash(ws[..|ws| - 1]) + [ReplaceEmDash(ws[|ws| - 1])]
  }

  lemma {:induction false} ReplaceEmDashJoin(ws: seq<string>)
    ensures ReplaceEmDash(Join(ws, " ")) == Join(MapReplaceEmDash(ws), " ")
  {
    if |ws| >= 2 {
      var init := ws[..|ws| - 1];
      ReplaceEmDashJoin(init);
      ReplaceEmDashAppend(Join(init, " ") + " ", ws[|ws| - 1]);
      ReplaceEmDashAppend(Join(init, " "), " ");
      var m := MapReplaceEmDash(ws);
      var last := ws[|ws| - 1];
      assert m[..|m| - 1] == MapReplaceEmDash(init) && m[|m| - 1] == ReplaceEmDash(last);
      assert ReplaceEmDash(" ") == " ";
      calc {
        ReplaceEmDash(Join(ws, " "));
        ReplaceEmDash(Join(init, " ") + " " + last);
        ReplaceEmDash(Join(init, " ") + " ") + ReplaceEmDash(last);
        ReplaceEmDash(Join(init, " ")) + ReplaceEmDash(" ") + ReplaceEmDash(last);
        Join(MapReplaceEmDash(init), " ") + " " + ReplaceEmDash(last);
        Join(m, " ");
      }
    }
  }

  lemma ProperWordsReplaced(ws: seq<string>)
    requires ProperWords(ws)
    ensures ProperWords(MapReplaceEmDash(ws))
  {
    forall k | 0 <= k < |ws| ensures |ReplaceEmDash(ws[k])| > 0 && NoSpace(ReplaceEmDash(ws[k])) {
      ReplaceEmDashWord(ws[k]);
    }
  }

  lemma JoinTwoMore(ws: seq<string>, a: string, b: string)
    ensures Join(ws + [a, b], " ") == (if ws == [] then [] else Join(ws, " ") + " ") + (a + " " + b)
  {
    var all := ws + [a, b];
    assert all[..|all| - 1] == ws + [a];
    if ws != [] {
      assert (ws + [a])[..|ws|] == ws;
    }
  }

  /** Fields of ` a b` for two words `a` and `b`. */
  lemma FieldsOfTwoWords(a: string, b: string)
    requires |a| > 0 && NoSpace(a) && |b| > 0 && NoSpace(b)
    ensures Fields(" " + a + " " + b) == [a, b]
  {
    var sp := " ";
    var u := sp + b;
    var v := a + u;
    assert IsSpace(sp[0]) && u[0] == ' ';
    FieldsOfSpaces(sp);
    FieldsOfWord(a);
    FieldsOfWord(b);
    FieldsAppend(sp, b);
    FieldsAppend(a, u);
    FieldsAppend(sp, v);
    ConcatAssoc(sp, a, u);
    ConcatAssoc(sp + a, sp, b);
  }

  lemma FieldsOfSeedSuffix(seed: string)
    requires |seed| > 0 && AllDigits(seed)
    ensures Fields(" --seed " + seed) == ["--seed", seed]
  {
    SeedFlagWord(seed);
    FieldsOfTwoWords("--seed", seed);
  }

  /** `--seed` is a word, and ` --seed <seed>` is it between two spaces before the seed. */
  lemma SeedFlagWord(seed: string)
    ensures NoSpace("--seed")
    ensures " --seed " + seed == " " + "--seed" + " " + seed
  {
    var flag := "--seed";
    forall i | 0 <= i < |flag| ensures !IsSpace(flag[i]) {
      assert '!' <= flag[i] <= '~';
    }
  }

  lemma TrimUnchanged(s: string)
    requires s == [] || (s[0] != ' ' && s[|s| - 1] != ' ')
    ensures Trim(s) == s
  {
  }

  // ---------------------------------------------------------------------
  // Shape of the normalised prompt

  /** The seed parameter contributes exactly the last two words. */
  lemma PromptWordsEndWithSeed(prompt: string, params: string, seed: string)
    requires |seed| > 0 && AllDigits(seed)
    ensures PromptWords(prompt, params, seed) == Fields(Trim(prompt) + " " + params) + ["--seed", seed]
  {
    var a := Trim(prompt) + " " + params;
    var suffix := " --seed " + seed;
    var inner := Trim(prompt) + " " + (params + " --seed " + seed);
    assert inner == a + suffix;
    FieldsOfTrim(inner);
    FieldsAppend(a, suffix);
    FieldsOfSeedSuffix(seed);
  }

  /** Joining words that end with `--seed <seed>` and replacing em dashes keeps that ending. */
  lemma SeedTail(ws: seq<string>, seed: string)
    requires |seed| > 0 && AllDigits(seed)
    ensures var n := ReplaceEmDash(Join(ws + ["--seed", seed], " "));
      && |n| >= 7 + |seed|
      && n[|n| - 7 - |seed|..] == "--seed " + seed
      && (|n| == 7 + |seed| || n[|n| - 8 - |seed|] == ' ')
  {
    JoinTwoMore(ws, "--seed", seed);
    var tail := "--seed " + seed;
    SeedFlagNoEmDash(seed);
    var pre := if ws == [] then [] else Join(ws, " ") + " ";
    ReplaceEmDashAppend(pre, tail);
    var r := ReplaceEmDash(pre);
    SuffixOfConcat(r, tail);
    if ws != [] {
      ReplaceEmDashAppend(Join(ws, " "), " ");
      SuffixOfConcat(ReplaceEmDash(Join(ws, " ")), " ");
    }
  }

  /** `--seed <digits>` is the two words joined by a space, and holds no em dash. */
  lemma SeedFlagNoEmDash(seed: string)
    requires AllDigits(seed)
    ensures "--seed" + " " + seed == "--seed " + seed
    ensures EmDash !in "--seed " + seed
  {
    var tail := "--seed " + seed;
    forall i | 0 <= i < |tail| ensures tail[i] != EmDash {
      if i >= 7 {
        assert tail[i] == seed[i - 7] && IsDigit(seed[i - 7]);
      } else {
        assert tail[i] == "--seed "[i];
      }
    }
  }

  /** The end of `x + y` is `y`, and the character before it is the last of `x`. */
  lemma SuffixOfConcat(x: string, y: string)
    ensures (x + y)[|x|..] == y
    ensures x != [] ==> (x + y)[|x| - 1] == x[|x| - 1]
  {
  }

  /**
   * The normalised prompt is words separated by single spaces, with no
   * leading or trailing space and no em dash, and it ends with
   * `--seed <seed>` preceded by a space or nothing.
   */
  lemma NormalizedShape(prompt: string, params: string, seed: string)
    requires |seed| > 0 && AllDigits(seed)
    ensures var n := NormalizePrompt(prompt, params, seed);
      && WellSpaced(n) && |n| > 0 && n[0] != ' ' && n[|n| - 1] != ' '
      && EmDash !in n
      && |n| >= 7 + |seed|
      && n[|n| - 7 - |seed|..] == "--seed " + seed
      && (|n| == 7 + |seed| || n[|n| - 8 - |seed|] == ' ')
  {
    NormalizedSeedTail(prompt, params, seed);
    NormalizedWords(prompt, params, seed);
    WellSpacedEnds(NormalizePrompt(prompt, params, seed));
  }

  /** The normalised prompt ends with `--seed <seed>`, preceded by a space or nothing. */
  lemma NormalizedSeedTail(prompt: string, params: string, seed: string)
    requires |seed| > 0 && AllDigits(seed)
    ensures var n := NormalizePrompt(prompt, params, seed);
      && |n| >= 7 + |seed|
      && n[|n| - 7 - |seed|..] == "--seed " + seed
      && (|n| == 7 + |seed| || n[|n| - 8 - |seed|] == ' ')
  {
    PromptWordsEndWithSeed(prompt, params, seed);
    SeedTail(Fields(Trim(prompt) + " " + params), seed);
  }

  /** The normalised prompt is single-spaced words without an em dash. */
  lemma NormalizedWords(prompt: string, params: string, seed: string)
    ensures WellSpaced(NormalizePrompt(prompt, params, seed))
    ensures EmDash !in NormalizePrompt(prompt, params, seed)
  {
    var all := PromptWords(prompt, params, seed);
    ReplaceEmDashJoin(all);
    ProperWordsReplaced(all);
    JoinWellSpaced(MapReplaceEmDash(all));
  }

  /** A well-spaced text neither starts nor ends with a space. */
  lemma WellSpacedEnds(s: string)
    requires WellSpaced(s) && |s| > 0
    ensures s[0] != ' ' && s[|s| - 1] != ' '
  {
    assert IsSpace(' ');
  }

  /** getLastSeedFromMessage recovers the appended seed from the normalised prompt. */
  lemma NormalizedSeedRecovered(prompt: string, params: string, seed: string)
    requires |seed| > 0 && AllDigits(seed)
    ensures LastSeedFromMessage(NormalizePrompt(prompt, params, seed)) == Some(seed)
  {
    NormalizedShape(prompt, params, seed);
    var n := NormalizePrompt(prompt, params, seed);
    var s := n[..|n| - 7 - |seed|];
    assert n == s + "--seed " + seed;
    LastSeedOfSuffix(s, seed);
  }

  /** Normalising twice changes nothing. */
  lemma NormalizedIsWords(prompt: string, params: string, seed: string)
    requires |seed| > 0 && AllDigits(seed)
    ensures var n := NormalizePrompt(prompt, params, seed);
      Join(Fields(n), " ") == n && Trim(n) == n && ReplaceEmDash(n) == n
  {
    NormalizedShape(prompt, params, seed);
    var n := NormalizePrompt(prompt, params, seed);
    TrimUnchanged(n);
    WellSpacedJoinFields(n);
  }

  /** A well-spaced text is what Join(Fields(·), " ") gives back from it. */
  lemma {:induction false} WellSpacedJoinFields(s: string)
    requires WellSpaced(s)
    ensures Join(Fields(s), " ") == s
    decreases |s|, 1
  {
    if s != [] {
      if WordLen(s) == |s| {
        assert s[..|s|] == s;
        FieldsOfWord(s);
      } else {
        WellSpacedJoinFieldsStep(s);
      }
    }
  }

  lemma {:induction false} WellSpacedJoinFieldsStep(s: string)
    requires WellSpaced(s) && s != [] && WordLen(s) < |s|
    ensures Join(Fields(s), " ") == s
    decreases |s|, 0
  {
    var n := WordLen(s);
    var rest := WellSpacedSplit(s);
    WellSpacedJoinFields(rest);
    JoinCons(s[..n], Fields(rest));
  }

  /** A well-spaced text with a space is its first word, one space and a well-spaced rest. */
  lemma WellSpacedSplit(s: string) returns (rest: string)
    requires WellSpaced(s) && s != [] && WordLen(s) < |s|
    ensures rest == s[WordLen(s) + 1..] && WellSpaced(rest)
    ensures |Fields(rest)| > 0
    ensures Fields(s) == [s[..WordLen(s)]] + Fields(rest)
    ensures s == s[..WordLen(s)] + " " + rest
  {
    var n := WordLen(s);
    rest := s[n + 1..];
    WellSpacedRest(s, n);
    FieldsSplitAtSpace(s[..n], rest);
    assert s == s[..n] + " " + rest;
    assert Fields(rest) == [rest[..WordLen(rest)]] + Fields(rest[WordLen(rest)..]);
  }

  lemma WellSpacedRest(s: string, n: nat)
    requires WellSpaced(s) && n < |s| && IsSpace(s[n])
    ensures s[n] == ' ' && |s[n + 1..]| > 0 && !IsSpace(s[n + 1..][0])
    ensures WellSpaced(s[n + 1..])
  {
    var rest := s[n + 1..];
    forall i | 0 <= i < |rest| && IsSpace(rest[i])
      ensures rest[i] == ' ' && 0 < i < |rest| - 1 && !IsSpace(rest[i + 1])
    {
      assert rest[i] == s[n + 1 + i];
    }
  }

  lemma FieldsSplitAtSpace(w: string, rest: string)
    requires |w| > 0 && NoSpace(w)
    ensures Fields(w + " " + rest) == [w] + Fields(rest)
  {
    var sp := " ";
    FieldsOfWord(w);
    FieldsAppend(w, sp + rest);
    FieldsAppend(sp, rest);
    FieldsOfSpaces(sp);
    assert w + (sp + rest) == w + " " + rest;
  }

  lemma {:induction false} JoinCons(w: string, ws: seq<string>)
    requires |ws| > 0
    ensures Join([w] + ws, " ") == w + " " + Join(ws, " ")
    decreases |ws|
  {
    var all := [w] + ws;
    if |ws| == 1 {
      assert all[..1] == [w];
    } else {
      var init := ws[..|ws| - 1];
      assert all[..|all| - 1] == [w] + init;
      JoinCons(w, init);
    }
  }

  // ---------------------------------------------------------------------
  // Correlation

  /**
   * A failure footer is a command word, a space and the echoed prompt:
   * getHashFromEmbeds of it is the id Imagine gave the task.
   */
  lemma FooterCorrelates(md5: Md5, command: string, prompt: string, params: string, seed: string)
    requires ' ' !in command
    requires |seed| > 0 && AllDigits(seed)
    ensures HashFromEmbeds(md5, command + " " + NormalizePrompt(prompt, params, seed))
         == ImagineTaskId(md5, prompt, params, seed)
  {
    var n := NormalizePrompt(prompt, params, seed);
    NormalizedSeedRecovered(prompt, params, seed);
    NormalizedShape(prompt, params, seed);
    HashFromEmbedsOfFooter(md5, command, n);
    TrimUnchanged(n);
  }

  /** `**` occurs nowhere in `s`. */
  predicate NoDoubleStar(s: string) {
    forall i :: 0 <= i < |s| - 1 ==> !(s[i] == '*' && s[i + 1] == '*')
  }

  /**
   * The origin-image message shows the normalised prompt in bold followed by
   * a tail without a seed: when the prompt holds no link and no `**`,
   * getHashFromMessage of it gives back the task id and the prompt.
   */
  lemma EchoCorrelates(md5: Md5, prompt: string, params: string, seed: string, tail: string)
    requires |seed| > 0 && AllDigits(seed)
    requires NoLinks(NormalizePrompt(prompt, params, seed))
    requires NoDoubleStar(NormalizePrompt(prompt, params, seed))
    requires NoSeedIn(tail)
    ensures HashFromMessage(md5, "**" + NormalizePrompt(prompt, params, seed) + "**" + tail)
         == (ImagineTaskId(md5, prompt, params, seed), NormalizePrompt(prompt, params, seed))
  {
    var n := NormalizePrompt(prompt, params, seed);
    NormalizedShape(prompt, params, seed);
    EchoBold(n, tail);
    EchoSeed(n, seed, tail);
    TrimUnchanged(n);
    ReplaceAngleLinksNoLinks(n, seed);
    ReplaceLinksNoLinks(n, seed);
    EchoHashOf(md5, "**" + n + "**" + tail, n, seed, n);
  }

  /** A message whose first bold text is `b` and whose last seed is `seed` hashes `b` with its `<…>` links replaced. */
  lemma EchoHashOf(md5: Md5, m: string, b: string, seed: string, r: string)
    requires FirstBold(m) == Some(b) && LastSeedFromMessage(m) == Some(seed)
    requires ReplaceAngleLinks(Trim(b), seed) == r
    ensures HashFromMessage(md5, m) == (Digest(md5, r), r)
  {
  }

  lemma {:induction false} LazyCloseScan(u: string, j: nat, n: nat)
    requires 1 <= j <= n && n + 2 <= |u|
    requires u[n] == '*' && u[n + 1] == '*'
    requires forall i :: j - 1 <= i < n ==> u[i] != '\n'
    requires forall i :: j <= i < n ==> !(u[i] == '*' && u[i + 1] == '*')
    ensures LazyClose(u, j) == Some(n)
    decreases n - j
  {
    if j < n {
      LazyCloseScan(u, j + 1, n);
    }
  }

  lemma EchoBold(n: string, tail: string)
    requires WellSpaced(n) && |n| > 0 && n[|n| - 1] != '*'
    requires NoDoubleStar(n)
    ensures FirstBold("**" + n + "**" + tail) == Some(n)
  {
    forall i | 0 <= i < |n| ensures n[i] != '\n' {
      assert IsSpace('\n');
    }
    EchoBoldLine(n, tail);
  }

  /** A one-line bold text with no `**` inside and no `*` at its end is what `\*{2}(.+?)\*{2}` captures. */
  lemma EchoBoldLine(n: string, tail: string)
    requires |n| > 0 && n[|n| - 1] != '*'
    requires NoDoubleStar(n)
    requires forall i :: 0 <= i < |n| ==> n[i] != '\n'
    ensures FirstBold("**" + n + "**" + tail) == Some(n)
  {
    var m := "**" + n + "**" + tail;
    assert HasPrefix(m, "**") by { assert m[..2] == "**"; }
    var u := m[2..];
    assert u == n + "**" + tail;
    assert u[|n|] == '*' && u[|n| + 1] == '*';
    forall i | 0 <= i < |n| ensures u[i] != '\n' {
      assert u[i] == n[i];
    }
    forall i | 1 <= i < |n| ensures !(u[i] == '*' && u[i + 1] == '*') {
      assert u[i] == n[i];
      if i < |n| - 1 {
        assert u[i + 1] == n[i + 1];
      }
    }
    LazyCloseScan(u, 1, |n|);
    assert m[2..2 + |n|] == n;
  }

  lemma EchoSeed(n: string, seed: string, tail: string)
    requires |seed| > 0 && AllDigits(seed)
    requires |n| >= 7 + |seed| && n[|n| - 7 - |seed|..] == "--seed " + seed
    requires NoSeedIn(tail)
    ensures LastSeedFromMessage("**" + n + "**" + tail) == Some(seed)
  {
    var k := |n| - 7 - |seed|;
    var rest := "**" + tail;
    NoSeedAfterStars(tail);
    EchoShape(n, k, "--seed " + seed, tail);
    LastSeedBeforeTail("**" + n[..k], seed, rest);
  }

  /** `**` then a text without a match holds no match. */
  lemma NoSeedAfterStars(tail: string)
    requires NoSeedIn(tail)
    ensures NoSeedIn("**" + tail)
  {
    var r := "**" + tail;
    forall i | 0 <= i < |r| ensures SeedMatch(r[i..]).None? {
      if i >= 2 {
        assert r[i..] == tail[i - 2..];
      } else {
        assert r[i..][0] == '*';
      }
    }
  }

  /** The bold echo regrouped around the seed flag at the end of the prompt. */
  lemma EchoShape(n: string, k: nat, flag: string, tail: string)
    requires k <= |n| && n[k..] == flag
    ensures "**" + n + "**" + tail == ("**" + n[..k]) + (flag + ("**" + tail))
  {
    assert n == n[..k] + flag;
  }

  // ---------------------------------------------------------------------
  // Correlation of a prompt that holds a link

  /**
   * The upstream service shows each link of the prompt as a link of its own
   * wrapped in `<…>`. When the normalised prompt is `p l q`, with one link
   * `l` between spaces and no other link, the origin-image message shows
   * `p <l2> q` in bold for some link `l2`; getHashFromMessage replaces
   * `<l2>` by the seed, as getHashFromPrompt replaced `l`, so the message
   * gives back Imagine's task id, and the prompt it reports has the seed
   * where the link was.
   */
  lemma EchoWithLinkCorrelates(md5: Md5, prompt: string, params: string, seed: string,
                               p: string, l: string, l2: string, q: string, tail: string)
    requires |seed| > 0 && AllDigits(seed)
    requires NormalizePrompt(prompt, params, seed) == p + l + q
    requires (p == [] || p[|p| - 1] == ' ') && (q == [] || q[0] == ' ')
    requires IsLink(l) && NoLinks(p) && NoLinks(q)
    requires IsLink(l2)
    requires NoDoubleStar(p + "<" + l2 + ">" + q)
    requires NoSeedIn(tail)
    ensures HashFromMessage(md5, "**" + (p + "<" + l2 + ">" + q) + "**" + tail)
         == (ImagineTaskId(md5, prompt, params, seed), p + seed + q)
  {
    var n := NormalizePrompt(prompt, params, seed);
    var e := p + "<" + l2 + ">" + q;
    NormalizedShape(prompt, params, seed);
    LinkBeforeSeed(n, p, l, q, seed);
    EchoedShape(n, p, l, l2, q, seed);
    EchoBoldLine(e, tail);
    EchoSeed(e, seed, tail);
    TrimUnchanged(e);
    ReplaceAngleLinksAtLink(p, l2, q, seed);
    ReplaceAngleLinksNoLinks(p, seed);
    ReplaceAngleLinksNoLinks(q, seed);
    ReplaceLinksAtLink(p, l, q, seed);
    ReplaceLinksNoLinks(p, seed);
    ReplaceLinksNoLinks(q, seed);
    EchoHashOf(md5, "**" + e + "**" + tail, e, seed, p + seed + q);
  }

  /**
   * In a normalised prompt `p l q`, a link `l` lies before the final
   * `--seed <seed>`: the link cannot hold the space before `--seed`, nor
   * start inside `--seed <seed>`.
   */
  lemma LinkBeforeSeed(n: string, p: string, l: string, q: string, seed: string)
    requires n == p + l + q && IsLink(l) && AllDigits(seed)
    requires |n| >= 7 + |seed| && n[|n| - 7 - |seed|..] == "--seed " + seed
    requires |n| == 7 + |seed| || n[|n| - 8 - |seed|] == ' '
    ensures |p| + |l| <= |n| - 7 - |seed|
  {
    var k := |n| - 7 - |seed|;
    var flag := "--seed " + seed;
    assert forall i :: k <= i < |n| ==> n[i] == flag[i - k];
    assert forall i :: k <= i < |n| ==> n[i] != 'h' by {
      forall i | k <= i < |n| ensures n[i] != 'h' {
        if i - k >= 7 {
          assert flag[i - k] == seed[i - k - 7] && IsDigit(seed[i - k - 7]);
        }
      }
    }
    assert n[|p|] == l[0] == 'h';
    assert |p| < k;
    assert n[k - 1] == ' ';
    assert forall i :: |p| <= i < |p| + |l| ==> n[i] == l[i - |p|] && !IsRegexSpace(n[i]);
    assert IsRegexSpace(n[k - 1]);
  }

  /** The echo `p <l2> q` of a normalised `p l q` keeps the seed flag at its end, its ends, and one line. */
  lemma EchoedShape(n: string, p: string, l: string, l2: string, q: string, seed: string)
    requires n == p + l + q && WellSpaced(n) && |n| > 0 && n[0] != ' '
    requires IsLink(l2) && AllDigits(seed) && |seed| > 0
    requires |n| >= 7 + |seed| && n[|n| - 7 - |seed|..] == "--seed " + seed
    requires |p| + |l| <= |n| - 7 - |seed|
    ensures var e := p + "<" + l2 + ">" + q;
      && |e| >= 7 + |seed| && e[|e| - 7 - |seed|..] == "--seed " + seed
      && e[0] != ' ' && e[|e| - 1] != ' ' && e[|e| - 1] != '*'
      && forall i :: 0 <= i < |e| ==> e[i] != '\n'
  {
    var e := p + "<" + l2 + ">" + q;
    var d := |p| + |l|;
    assert q == n[d..];
    assert e[|e| - 7 - |seed|..] == q[|q| - 7 - |seed|..] == n[|n| - 7 - |seed|..];
    assert e[|e| - 1] == n[|n| - 1] == seed[|seed| - 1];
    assert IsDigit(seed[|seed| - 1]);
    if p != [] {
      assert e[0] == n[0];
    }
    forall i | 0 <= i < |e| ensures e[i] != '\n' {
      assert IsSpace('\n');
      if i < |p| {
        assert e[i] == n[i];
      } else if i > |p| && i <= |p| + |l2| {
        assert e[i] == l2[i - |p| - 1];
      } else if i > |p| + |l2| + 1 {
        assert e[i] == n[d + i - |p| - |l2| - 2];
      }
    }
  }
}
