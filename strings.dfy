/**
 * The few pieces of Go's `strings` and `strconv` packages that the task
 * engine uses, over strings modelled as sequences of Unicode code points.
 */
module GoStrings {

  /** `\s` of Go's regular-expression syntax: [\t\n\f\r ]. */
  predicate IsRegexSpace(c: char) {
    c == ' ' || c == '\t' || c == '\n' || c == '\U{000C}' || c == '\r'
  }

  /** `unicode.IsSpace`, the separator test of `strings.Fields`. */
  predicate IsSpace(c: char) {
    || IsRegexSpace(c) || c == '\U{000B}' || c == '\U{0085}' || c == '\U{00A0}'
    || c == '\U{1680}' || ('\U{2000}' <= c <= '\U{200A}')
    || c == '\U{2028}' || c == '\U{2029}' || c == '\U{202F}' || c == '\U{205F}' || c == '\U{3000}'
  }

  /** `\d` of Go's regular-expression syntax. */
  predicate IsDigit(c: char) {
    '0' <= c <= '9'
  }

  predicate AllDigits(s: string) {
    forall i :: 0 <= i < |s| ==> IsDigit(s[i])
  }

  predicate NoSpace(s: string) {
    forall i :: 0 <= i < |s| ==> !IsSpace(s[i])
  }

  predicate HasPrefix(s: string, p: string) {
    |p| <= |s| && s[..|p|] == p
  }

  /** Does `p` occur in `s` at some position? */
  predicate Contains(s: string, p: string) {
    exists i :: 0 <= i <= |s| && HasPrefix(s[i..], p)
  }

  /** The em dash that the upstream service rewrites to `--`. */
  const EmDash: char := '\U{2014}'

  // ---------------------------------------------------------------------
  // strings.Trim(s, " ")

  function TrimLeftSpaces(s: string): (r: string)
    ensures |r| <= |s|
    ensures r == [] || r[0] != ' '
  {
    if |s| > 0 && s[0] == ' ' then TrimLeftSpaces(s[1..]) else s
  }

  function TrimRightSpaces(s: string): (r: string)
    ensures |r| <= |s|
    ensures r == [] || r[|r| - 1] != ' '
  {
    if |s| > 0 && s[|s| - 1] == ' ' then TrimRightSpaces(s[..|s| - 1]) else s
  }

  /** strings.Trim(s, " "): drops leading and trailing U+0020 only. */
  function Trim(s: string): (r: string)
    ensures |r| <= |s|
    ensures r == [] || (r[0] != ' ' && r[|r| - 1] != ' ')
  {
    var l := TrimLeftSpaces(s);
    TrimRightSplit(l);
    TrimRightSpaces(l)
  }

  /** What TrimLeftSpaces drops is a run of spaces. */
  lemma {:induction false} TrimLeftSplit(s: string)
    ensures var r := TrimLeftSpaces(s);
      s == s[..|s| - |r|] + r && forall i :: 0 <= i < |s| - |r| ==> s[i] == ' '
  {
    if |s| > 0 && s[0] == ' ' {
      TrimLeftSplit(s[1..]);
    }
  }

  /** What TrimRightSpaces drops is a run of spaces. */
  lemma {:induction false} TrimRightSplit(s: string)
    ensures var r := TrimRightSpaces(s);
      s == r + s[|r|..] && forall i :: |r| <= i < |s| ==> s[i] == ' '
  {
    if |s| > 0 && s[|s| - 1] == ' ' {
      TrimRightSplit(s[..|s| - 1]);
      var r := TrimRightSpaces(s);
      assert s == s[..|s| - 1] + [' '];
    }
  }

  lemma TrimOfTrimmed(s: string)
    requires s == [] || (s[0] != ' ' && s[|s| - 1] != ' ')
    ensures Trim(s) == s
  {
  }

  // ---------------------------------------------------------------------
  // strings.SplitN(s, " ", 2) and strings.Split(s, sep)

  /** Index of the first `c` in `s`, or |s| when there is none. */
  function IndexOf(s: string, c: char): (i: nat)
    ensures i <= |s|
    ensures i < |s| ==> s[i] == c
  {
    if s == [] then 0 else if s[0] == c then 0 else 1 + IndexOf(s[1..], c)
  }

  /** `c` does not occur before IndexOf(s, c). */
  lemma {:induction false} IndexOfFirst(s: string, c: char)
    ensures c !in s[..IndexOf(s, c)]
  {
    if s != [] && s[0] != c {
      IndexOfFirst(s[1..], c);
      assert s[..IndexOf(s, c)] == [s[0]] + s[1..][..IndexOf(s[1..], c)];
    }
  }

  /** strings.SplitN(s, " ", 2): one part when `s` holds no space, else the parts before and after the first. */
  function SplitN2(s: string): (parts: seq<string>)
    ensures 1 <= |parts| <= 2
    ensures |parts| == 1 <==> ' ' !in s
    ensures |parts| == 1 ==> parts[0] == s
    ensures |parts| == 2 ==> s == parts[0] + " " + parts[1] && ' ' !in parts[0]
  {
    var i := IndexOf(s, ' ');
    IndexOfFirst(s, ' ');
    if i == |s| then
      assert s[..i] == s;
      [s]
    else
      assert s == s[..i] + " " + s[i + 1..];
      [s[..i], s[i + 1..]]
  }

  /** strings.Split(s, string(sep)): the pieces between occurrences of `sep`; never empty. */
  function Split(s: string, sep: char): (parts: seq<string>)
    ensures |parts| >= 1
    decreases |s|
  {
    var i := IndexOf(s, sep);
    if i == |s| then [s] else [s[..i]] + Split(s[i + 1..], sep)
  }

  /** No piece holds the separator, and there is one piece exactly when `s` holds none. */
  lemma {:induction false} SplitPieces(s: string, sep: char)
    ensures var parts := Split(s, sep);
      (forall k :: 0 <= k < |parts| ==> sep !in parts[k]) && (|parts| == 1 <==> sep !in s)
    decreases |s|
  {
    var i := IndexOf(s, sep);
    IndexOfFirst(s, sep);
    if i < |s| {
      var rest := s[i + 1..];
      SplitPieces(rest, sep);
      assert Split(s, sep) == [s[..i]] + Split(rest, sep);
    } else {
      assert s[..i] == s;
    }
  }

  /** A character absent from `s` is absent from every piece of it. */
  lemma {:induction false} SplitPiecesLack(s: string, sep: char, c: char)
    requires c !in s
    ensures var parts := Split(s, sep); forall k :: 0 <= k < |parts| ==> c !in parts[k]
    decreases |s|
  {
    var i := IndexOf(s, sep);
    if i < |s| {
      var rest := s[i + 1..];
      assert c !in s[..i] by {
        assert forall j :: 0 <= j < i ==> s[..i][j] == s[j];
      }
      assert c !in rest by {
        assert forall j :: 0 <= j < |rest| ==> rest[j] == s[i + 1 + j];
      }
      SplitPiecesLack(rest, sep, c);
      var parts := Split(s, sep);
      assert parts == [s[..i]] + Split(rest, sep);
      assert forall k :: 1 <= k < |parts| ==> parts[k] == Split(rest, sep)[k - 1];
    } else {
      assert s[..i] == s;
    }
  }

  // ---------------------------------------------------------------------
  // strings.Fields and strings.Join(parts, " ")

  /** Length of the run of non-separators at the start of `s`. */
  function WordLen(s: string): (n: nat)
    ensures n <= |s| && NoSpace(s[..n])
    ensures n < |s| ==> IsSpace(s[n])
  {
    if s == [] || IsSpace(s[0]) then 0 else 1 + WordLen(s[1..])
  }

  /** strings.Fields: the maximal runs of non-whitespace, in order. */
  function Fields(s: string): (r: seq<string>)
    ensures forall k :: 0 <= k < |r| ==> |r[k]| > 0 && NoSpace(r[k])
    decreases |s|
  {
    if s == [] then []
    else if IsSpace(s[0]) then Fields(s[1..])
    else
      var n := WordLen(s);
      [s[..n]] + Fields(s[n..])
  }

  lemma WordLenAppend(x: string, y: string)
    requires WordLen(x) < |x|
    ensures WordLen(x + y) == WordLen(x)
  {
    if x != [] && !IsSpace(x[0]) {
      assert (x + y)[1..] == x[1..] + y;
      WordLenAppend(x[1..], y);
    }
  }

  lemma WordLenWhole(x: string, y: string)
    requires NoSpace(x) && (y == [] || IsSpace(y[0]))
    ensures WordLen(x + y) == |x|
  {
    if x != [] {
      assert (x + y)[1..] == x[1..] + y;
      WordLenWhole(x[1..], y);
    }
  }

  /** Fields splits independently on both sides of a separator. */
  lemma {:induction false} FieldsAppend(x: string, y: string)
    requires x == [] || y == [] || IsSpace(x[|x| - 1]) || IsSpace(y[0])
    ensures Fields(x + y) == Fields(x) + Fields(y)
    decreases |x|, 1
  {
    if x == [] {
      assert x + y == y;
    } else if IsSpace(x[0]) {
      FieldsAppendSpace(x, y);
    } else if WordLen(x) < |x| {
      FieldsAppendWords(x, y);
    } else {
      FieldsAppendWord(x, y);
    }
  }

  lemma {:induction false} FieldsAppendSpace(x: string, y: string)
    requires x != [] && IsSpace(x[0])
    requires y == [] || IsSpace(x[|x| - 1]) || IsSpace(y[0])
    ensures Fields(x + y) == Fields(x) + Fields(y)
    decreases |x|, 0
  {
    var t := x[1..];
    assert (x + y)[1..] == t + y;
    assert t == [] || t[|t| - 1] == x[|x| - 1];
    FieldsAppend(t, y);
    assert Fields(x + y) == Fields(t + y);
  }

  lemma {:induction false} FieldsAppendWords(x: string, y: string)
    requires x != [] && !IsSpace(x[0]) && WordLen(x) < |x|
    requires y == [] || IsSpace(x[|x| - 1]) || IsSpace(y[0])
    ensures Fields(x + y) == Fields(x) + Fields(y)
    decreases |x|, 0
  {
    var n := WordLen(x);
    var t := x[n..];
    WordLenAppend(x, y);
    assert (x + y)[..n] == x[..n];
    assert (x + y)[n..] == t + y;
    assert t[|t| - 1] == x[|x| - 1];
    FieldsAppend(t, y);
    assert Fields(x + y) == [x[..n]] + Fields(t + y);
    assert Fields(x) == [x[..n]] + Fields(t);
  }

  lemma FieldsAppendWord(x: string, y: string)
    requires x != [] && !IsSpace(x[0]) && WordLen(x) == |x|
    requires y == [] || IsSpace(y[0])
    ensures Fields(x + y) == Fields(x) + Fields(y)
  {
    var n := |x|;
    assert x[..n] == x;
    assert NoSpace(x);
    WordLenWhole(x, y);
    assert (x + y)[..n] == x;
    assert (x + y)[n..] == y;
    assert x[n..] == [];
    assert Fields(x + y) == [x] + Fields(y);
    assert Fields(x) == [x] + Fields([]);
  }

  lemma {:induction false} FieldsOfSpaces(x: string)
    requires forall i :: 0 <= i < |x| ==> IsSpace(x[i])
    ensures Fields(x) == []
  {
    if x != [] {
      FieldsOfSpaces(x[1..]);
    }
  }

  lemma FieldsOfWord(w: string)
    requires |w| > 0 && NoSpace(w)
    ensures Fields(w) == [w]
  {
    WordLenWhole(w, []);
    assert w + [] == w;
    assert w[..|w|] == w;
    assert w[|w|..] == [];
  }

  /** Fields ignores what strings.Trim(s, " ") removes. */
  lemma FieldsOfTrim(s: string)
    ensures Fields(Trim(s)) == Fields(s)
  {
    var l := TrimLeftSpaces(s);
    var r := TrimRightSpaces(l);
    TrimLeftSplit(s);
    TrimRightSplit(l);
    var a := s[..|s| - |l|];
    var b := l[|r|..];
    assert s == a + l;
    assert l == r + b;
    FieldsOfSpaces(a);
    FieldsOfSpaces(b);
    FieldsAppend(a, l);
    FieldsAppend(r, b);
    assert Fields(l) == Fields(r) + [];
  }

  /** strings.Join(parts, sep). */
  function Join(parts: seq<string>, sep: string): (r: string)
    ensures |parts| == 0 ==> r == []
    ensures |parts| == 1 ==> r == parts[0]
  {
    if |parts| == 0 then []
    else if |parts| == 1 then parts[0]
    else Join(parts[..|parts| - 1], sep) + sep + parts[|parts| - 1]
  }

  /**
   * The shape `strings.Join(strings.Fields(s), " ")` produces: every
   * whitespace character is a plain space that neither starts nor ends the
   * string and is followed by a non-space, so words are separated by exactly
   * one space.
   */
  predicate WellSpaced(s: string) {
    forall i :: 0 <= i < |s| && IsSpace(s[i]) ==> s[i] == ' ' && 0 < i < |s| - 1 && !IsSpace(s[i + 1])
  }

  predicate ProperWords(ws: seq<string>) {
    forall k :: 0 <= k < |ws| ==> |ws[k]| > 0 && NoSpace(ws[k])
  }

  lemma {:induction false} JoinWellSpaced(ws: seq<string>)
    requires ProperWords(ws)
    ensures WellSpaced(Join(ws, " "))
    ensures |ws| > 0 ==> |Join(ws, " ")| > 0
  {
    if |ws| > 1 {
      var init := ws[..|ws| - 1];
      JoinWellSpaced(init);
      var j := Join(init, " ");
      var w := ws[|ws| - 1];
      var r := j + " " + w;
      forall i | 0 <= i < |r| && IsSpace(r[i])
        ensures r[i] == ' ' && 0 < i < |r| - 1 && !IsSpace(r[i + 1])
      {
        if i < |j| {
          assert r[i] == j[i];
          if i < |j| - 1 { assert r[i + 1] == j[i + 1]; }
        }
      }
    }
  }

  // ---------------------------------------------------------------------
  // strings.ReplaceAll(s, "—", "--")

  function ReplaceEmDash(s: string): (r: string)
    ensures EmDash !in r
    ensures EmDash !in s ==> r == s
  {
    if s == [] then []
    else (if s[0] == EmDash then "--" else [s[0]]) + ReplaceEmDash(s[1..])
  }

  lemma {:induction false} ReplaceEmDashAppend(x: string, y: string)
    ensures ReplaceEmDash(x + y) == ReplaceEmDash(x) + ReplaceEmDash(y)
  {
    if x == [] {
      assert x + y == y;
    } else {
      assert (x + y)[1..] == x[1..] + y;
      ReplaceEmDashAppend(x[1..], y);
    }
  }

  /** Replacing the em dash never turns a word into whitespace or empties it. */
  lemma {:induction false} ReplaceEmDashWord(w: string)
    ensures |ReplaceEmDash(w)| >= |w|
    ensures NoSpace(w) ==> NoSpace(ReplaceEmDash(w))
  {
    if w != [] {
      ReplaceEmDashWord(w[1..]);
    }
  }

  // ---------------------------------------------------------------------
  // strconv.Itoa on non-negative values

  function DigitChar(d: nat): (c: char)
    requires d < 10
    ensures IsDigit(c)
  {
    "0123456789"[d]
  }

  /** strconv.Itoa(n) for n >= 0: decimal digits, no sign, no leading zero. */
  function Itoa(n: nat): (s: string)
    ensures |s| > 0 && AllDigits(s)
    ensures |s| > 1 ==> s[0] != '0'
  {
    if n < 10 then [DigitChar(n)] else Itoa(n / 10) + [DigitChar(n % 10)]
  }
}
