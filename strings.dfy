/** The handful of Python string operations the bot relies on, defined on
    `seq<char>` with the semantics of CPython's `str` methods: `strip()`,
    `split()`, `split(sep)`, `replace(old, new)`, `in`, `startswith`, `lower()`,
    `int(...)` and `str(int)`. */
module Strings {
  import opened Types

  /** The characters for which Python's `str.isspace()` holds; `strip()` and
      `split()` without arguments remove exactly these. */
  predicate IsSpace(c: char) {
    || c == ' '
    || ('\t' <= c <= '\r')
    || ('\U{1C}' <= c <= '\U{1F}')
    || c == '\U{85}' || c == '\U{A0}' || c == '\U{1680}'
    || ('\U{2000}' <= c <= '\U{200A}')
    || c == '\U{2028}' || c == '\U{2029}' || c == '\U{202F}' || c == '\U{205F}' || c == '\U{3000}'
  }

  predicate NoSpace(s: string) {
    forall i :: 0 <= i < |s| ==> !IsSpace(s[i])
  }

  predicate AllSpace(s: string) {
    forall i :: 0 <= i < |s| ==> IsSpace(s[i])
  }

  /** `s` is empty or neither begins nor ends with whitespace. */
  predicate Trimmed(s: string) {
    s == [] || (!IsSpace(s[0]) && !IsSpace(s[|s| - 1]))
  }

  /** `s.lstrip()`: the longest suffix of `s` that does not start with whitespace. */
  function TrimLeft(s: string): (r: string)
    ensures |r| <= |s|
    ensures r == [] || !IsSpace(r[0])
    ensures AllSpace(s[..|s| - |r|])
  {
    if |s| > 0 && IsSpace(s[0]) then TrimLeft(s[1..]) else s
  }

  /** What `lstrip()` keeps is a suffix of the text: it only removes characters in
      front. */
  lemma {:induction false} TrimLeftSuffix(s: string)
    ensures TrimLeft(s) == s[|s| - |TrimLeft(s)|..]
    decreases |s|
  {
    if |s| > 0 && IsSpace(s[0]) {
      TrimLeftSuffix(s[1..]);
      assert s[1..][|s[1..]| - |TrimLeft(s[1..])|..] == s[|s| - |TrimLeft(s)|..];
    }
  }

  /** `s.rstrip()`: the longest prefix of `s` that does not end with whitespace. */
  function TrimRight(s: string): (r: string)
    ensures |r| <= |s| && r == s[..|r|]
    ensures r == [] || !IsSpace(r[|r| - 1])
    ensures AllSpace(s[|r|..])
  {
    if |s| > 0 && IsSpace(s[|s| - 1]) then
      var r := TrimRight(s[..|s| - 1]);
      assert s[|r|..] == s[..|s| - 1][|r|..] + [s[|s| - 1]];
      r
    else s
  }

  /** `s.strip()`. */
  function Strip(s: string): (r: string)
    ensures Trimmed(r)
    ensures |r| <= |s|
  {
    var l := TrimLeft(s);
    var r := TrimRight(l);
    assert r != [] ==> r[0] == l[0];
    r
  }

  lemma TrimmedIsFixed(s: string)
    requires Trimmed(s)
    ensures TrimLeft(s) == s && TrimRight(s) == s && Strip(s) == s
  {
  }

  /** Stripping twice is stripping once. */
  lemma StripIdempotent(s: string)
    ensures Strip(Strip(s)) == Strip(s)
  {
    TrimmedIsFixed(Strip(s));
  }

  /** A space in front of trimmed non-empty text is all that strip() removes. */
  lemma StripLeadingSpace(t: string)
    requires t != [] && Trimmed(t)
    ensures Strip(" " + t) == t
  {
    assert (" " + t)[1..] == t;
    TrimmedIsFixed(t);
  }

  /** A space after trimmed non-empty text is all that strip() removes. */
  lemma StripTrailingSpace(t: string)
    requires t != [] && Trimmed(t)
    ensures Strip(t + " ") == t
  {
    assert (t + " ")[..|t|] == t;
    assert TrimLeft(t + " ") == t + " ";
    TrimmedIsFixed(t);
  }

  lemma SliceOfSlice(s: string, i: nat, j: nat, a: nat, b: nat)
    requires i <= j <= |s| && a <= b <= j - i
    ensures s[i..j][a..b] == s[i + a..i + b]
  {
    assert forall k :: 0 <= k < b - a ==> s[i..j][a..b][k] == s[i + a + k];
  }

  /** `strip()` keeps one window `s[d..d + |Strip(s)|]` of the text; everything
      before it and everything after it is whitespace. */
  lemma StripWindow(s: string) returns (d: nat)
    ensures d + |Strip(s)| <= |s| && Strip(s) == s[d..d + |Strip(s)|]
    ensures forall j :: 0 <= j < d ==> IsSpace(s[j])
    ensures forall j :: d + |Strip(s)| <= j < |s| ==> IsSpace(s[j])
  {
    TrimLeftSuffix(s);
    var l := TrimLeft(s);
    d := |s| - |l|;
    var r := TrimRight(l);
    assert l == s[d..];
    forall j | 0 <= j < d
      ensures IsSpace(s[j])
    {
      assert s[..d][j] == s[j];
    }
    forall j | d + |r| <= j < |s|
      ensures IsSpace(s[j])
    {
      assert l[|r|..][j - d - |r|] == s[j];
    }
  }

  /** A stretch of the text that begins and ends with a non-space character lies
      inside what `strip()` keeps. */
  lemma StripKeeps(s: string, p: nat, u: string)
    requires MatchAt(s, u, p) && u != [] && !IsSpace(u[0]) && !IsSpace(u[|u| - 1])
    ensures Contains(Strip(s), u)
  {
    var d := StripWindow(s);
    var w := Strip(s);
    assert s[p] == u[0];
    assert s[p + |u| - 1] == u[|u| - 1];
    assert !IsSpace(s[p]) && !IsSpace(s[p + |u| - 1]);
    assert d <= p && p + |u| <= d + |w|;
    SliceOfSlice(s, d, d + |w|, p - d, p - d + |u|);
    assert MatchAt(w, u, p - d);
  }

  /** What occurs in a text occurs, stripped, in the stripped text. */
  lemma StripContains(s: string, t: string)
    requires Contains(s, t)
    ensures Contains(Strip(s), Strip(t))
  {
    var i: nat :| i <= |s| && MatchAt(s, t, i);
    var u := Strip(t);
    if u == [] {
      assert MatchAt(Strip(s), u, 0);
    } else {
      var e := StripWindow(t);
      SliceOfSlice(s, i, i + |t|, e, e + |u|);
      StripKeeps(s, i + e, u);
    }
  }

  lemma {:induction false} TrimLeftSpaces(a: string, y: string)
    requires AllSpace(a)
    ensures TrimLeft(a + y) == TrimLeft(y)
    decreases |a|
  {
    if a == [] {
      assert a + y == y;
    } else {
      assert (a + y)[0] == a[0];
      assert (a + y)[1..] == a[1..] + y;
      TrimLeftSpaces(a[1..], y);
    }
  }

  lemma {:induction false} TrimRightSpaces(y: string, b: string)
    requires AllSpace(b)
    ensures TrimRight(y + b) == TrimRight(y)
    decreases |b|
  {
    if b == [] {
      assert y + b == y;
    } else {
      var s := y + b;
      assert s[|s| - 1] == b[|b| - 1];
      assert s[..|s| - 1] == y + b[..|b| - 1];
      TrimRightSpaces(y, b[..|b| - 1]);
    }
  }

  /** The stripped text is empty exactly when the text is all whitespace. */
  lemma StripEmptyIffAllSpace(s: string)
    ensures Strip(s) == [] <==> AllSpace(s)
  {
    var d := StripWindow(s);
    if Strip(s) != [] {
      assert Strip(s)[0] == s[d];
    } else {
      assert AllSpace(s);
    }
  }

  /** `lstrip()` of text with something left after it is unaffected by what
      follows the text. */
  lemma {:induction false} TrimLeftAppend(x: string, b: string)
    requires TrimLeft(x) != []
    ensures TrimLeft(x + b) == TrimLeft(x) + b
    decreases |x|
  {
    assert (x + b)[0] == x[0];
    if IsSpace(x[0]) {
      assert (x + b)[1..] == x[1..] + b;
      TrimLeftAppend(x[1..], b);
    }
  }

  /** Whitespace around any text is removed by `strip()` together with the
      text's own. */
  lemma StripAround(a: string, x: string, b: string)
    requires AllSpace(a) && AllSpace(b)
    ensures Strip(a + x + b) == Strip(x)
  {
    assert a + x + b == a + (x + b);
    TrimLeftSpaces(a, x + b);
    if TrimLeft(x) == [] {
      assert x[..|x|] == x;
      assert AllSpace(x + b);
      assert (x + b) + [] == x + b;
      TrimLeftSpaces(x + b, []);
    } else {
      TrimLeftAppend(x, b);
      TrimRightSpaces(TrimLeft(x), b);
    }
  }

  /** Whitespace around trimmed text is exactly what `strip()` removes. */
  lemma StripPadded(a: string, x: string, b: string)
    requires AllSpace(a) && AllSpace(b) && x != [] && Trimmed(x)
    ensures Strip(a + x + b) == x
  {
    assert a + x + b == a + (x + b);
    TrimLeftSpaces(a, x + b);
    assert (x + b)[0] == x[0];
    TrimRightSpaces(x, b);
    TrimmedIsFixed(x);
  }

  /** Length of the leading run of non-whitespace characters. */
  function TokenLength(s: string): (n: nat)
    ensures n <= |s|
    ensures NoSpace(s[..n])
    ensures n == |s| || IsSpace(s[n])
  {
    if |s| == 0 || IsSpace(s[0]) then 0 else 1 + TokenLength(s[1..])
  }

  /** A token of `split()`: non-empty text without whitespace. */
  predicate IsWord(w: string) {
    w != [] && NoSpace(w)
  }

  /** `s.split()`: the maximal runs of non-whitespace characters, in order. */
  function SplitWs(s: string): (r: seq<string>)
    ensures forall i :: 0 <= i < |r| ==> IsWord(r[i])
    decreases |s|
  {
    var t := TrimLeft(s);
    if t == [] then []
    else
      var n := TokenLength(t);
      var w := t[..n];
      var rest := SplitWs(t[n..]);
      assert IsWord(w);
      AllWordsCons(w, rest);
      [w] + rest
  }

  lemma AllWordsCons(w: string, rest: seq<string>)
    requires IsWord(w) && forall i :: 0 <= i < |rest| ==> IsWord(rest[i])
    ensures forall i :: 0 <= i < |[w] + rest| ==> IsWord(([w] + rest)[i])
  {
  }

  lemma {:induction false} TokenLengthOfWord(w: string, rest: string)
    requires NoSpace(w)
    requires rest == [] || IsSpace(rest[0])
    ensures TokenLength(w + rest) == |w|
    decreases |w|
  {
    if w != [] {
      assert (w + rest)[1..] == w[1..] + rest;
      TokenLengthOfWord(w[1..], rest);
    }
  }

  /** A word followed by whitespace (or nothing) is the first token. */
  lemma SplitWsWord(w: string, rest: string)
    requires w != [] && NoSpace(w)
    requires rest == [] || IsSpace(rest[0])
    ensures SplitWs(w + rest) == [w] + SplitWs(rest)
  {
    TokenLengthOfWord(w, rest);
    assert TrimLeft(w + rest) == w + rest;
    assert (w + rest)[..|w|] == w;
    assert (w + rest)[|w|..] == rest;
  }

  /** Leading whitespace does not change the tokens. */
  lemma SplitWsLeadingSpace(c: char, s: string)
    requires IsSpace(c)
    ensures SplitWs([c] + s) == SplitWs(s)
  {
    assert ([c] + s)[1..] == s;
  }

  /** A word and a space in front of more text split off as the first token. */
  lemma SplitWsWordSpace(w: string, rest: string)
    requires IsWord(w)
    ensures SplitWs(w + " " + rest) == [w] + SplitWs(rest)
  {
    var tail := [' '] + rest;
    assert w + " " + rest == w + tail;
    SplitWsWord(w, tail);
    SplitWsLeadingSpace(' ', rest);
  }

  /** A single word splits into itself. */
  lemma SplitWsOneWord(w: string)
    requires IsWord(w)
    ensures SplitWs(w) == [w]
  {
    TokenLengthOfWord(w, []);
    assert w + [] == w;
    assert TrimLeft(w) == w;
    assert w[|w|..] == [];
  }

  lemma SplitWsTwoWords(b: string, c: string)
    requires IsWord(b) && IsWord(c)
    ensures SplitWs(b + " " + c) == [b, c]
  {
    SplitWsWordSpace(b, c);
    SplitWsOneWord(c);
  }

  /** Three words separated by single spaces split into exactly those words. */
  lemma SplitWsThreeWords(a: string, b: string, c: string)
    requires IsWord(a) && IsWord(b) && IsWord(c)
    ensures SplitWs(a + " " + b + " " + c) == [a, b, c]
  {
    var bc := b + " " + c;
    assert a + " " + b + " " + c == a + " " + bc;
    SplitWsWordSpace(a, bc);
    SplitWsTwoWords(b, c);
  }

  /** An occurrence of `sub` is also an occurrence of each prefix of `sub`. */
  lemma ContainsPrefix(s: string, sub: string, k: nat)
    requires k <= |sub| && Contains(s, sub)
    ensures Contains(s, sub[..k])
  {
    var i: nat :| i <= |s| && MatchAt(s, sub, i);
    assert s[i..i + k] == sub[..k];
    assert MatchAt(s, sub[..k], i);
  }

  /** `s.split(sep)` for a one-character separator: the pieces between separators,
      empty pieces included. */
  function Split(s: string, sep: char): (r: seq<string>)
    ensures |r| >= 1
    ensures forall i :: 0 <= i < |r| ==> sep !in r[i]
  {
    if |s| == 0 then [[]]
    else
      var rest := Split(s[1..], sep);
      if s[0] == sep then [[]] + rest else [[s[0]] + rest[0]] + rest[1..]
  }

  /** Text without the separator is a single piece. */
  lemma {:induction false} SplitNoSep(p: string, sep: char)
    requires sep !in p
    ensures Split(p, sep) == [p]
  {
    if p != [] {
      SplitNoSep(p[1..], sep);
      assert [p[0]] + p[1..] == p;
    }
  }

  /** Splitting at one separator splits both sides independently. */
  lemma {:induction false} SplitConcat(a: string, b: string, sep: char)
    ensures Split(a + [sep] + b, sep) == Split(a, sep) + Split(b, sep)
  {
    if a == [] {
      assert a + [sep] + b == [sep] + b;
      assert ([sep] + b)[1..] == b;
    } else {
      assert (a + [sep] + b)[1..] == a[1..] + [sep] + b;
      SplitConcat(a[1..], b, sep);
    }
  }

  /** `sep.join(parts)`. */
  function Join(parts: seq<string>, sep: string): string {
    if |parts| == 0 then []
    else if |parts| == 1 then parts[0]
    else parts[0] + sep + Join(parts[1..], sep)
  }

  lemma JoinTwo(a: string, b: string, sep: string)
    ensures Join([a, b], sep) == a + sep + b
  {
    assert [a, b][1..] == [b];
  }

  lemma JoinThree(a: string, b: string, c: string, sep: string)
    ensures Join([a, b, c], sep) == a + sep + b + sep + c
  {
    assert [a, b, c][1..] == [b, c];
    JoinTwo(b, c, sep);
  }

  lemma JoinFive(a: string, b: string, c: string, d: string, e: string, sep: string)
    ensures Join([a, b, c, d, e], sep) == a + sep + b + sep + c + sep + d + sep + e
  {
    assert [a, b, c, d, e][1..] == [b, c, d, e];
    assert [b, c, d, e][1..] == [c, d, e];
    JoinThree(c, d, e, sep);
  }

  /** A text that begins with a line and its line break. */
  lemma StartsWithLine(line: string, rest: string)
    ensures StartsWith(line + "\n" + rest, line + "\n")
  {
    assert (line + "\n" + rest)[..|line| + 1] == line + "\n";
  }

  /** The pieces of `split` put back together with the separator give the text. */
  lemma {:induction false} SplitJoin(s: string, sep: char)
    ensures Join(Split(s, sep), [sep]) == s
  {
    if |s| > 0 {
      SplitJoin(s[1..], sep);
      var rest := Split(s[1..], sep);
      if s[0] == sep {
        assert Join([[]] + rest, [sep]) == [] + [sep] + Join(rest, [sep]);
      } else {
        var r := [[s[0]] + rest[0]] + rest[1..];
        if |rest| == 1 {
          assert Join(r, [sep]) == [s[0]] + rest[0];
        } else {
          assert r[1..] == rest[1..];
          assert Join(rest, [sep]) == rest[0] + [sep] + Join(rest[1..], [sep]);
        }
      }
    }
  }

  /** Joining pieces that do not contain the separator and splitting again gives
      the pieces back. */
  lemma {:induction false} JoinSplit(parts: seq<string>, sep: char)
    requires |parts| >= 1
    requires forall i :: 0 <= i < |parts| ==> sep !in parts[i]
    ensures Split(Join(parts, [sep]), sep) == parts
  {
    if |parts| == 1 {
      SplitNoSep(parts[0], sep);
    } else {
      JoinSplit(parts[1..], sep);
      SplitConcat(parts[0], Join(parts[1..], [sep]), sep);
      SplitNoSep(parts[0], sep);
    }
  }

  /** Python's `sub in s`. */
  predicate Contains(s: string, sub: string) {
    exists i: nat | i <= |s| :: MatchAt(s, sub, i)
  }

  /** `sub` occurs in `s` at position `i`. */
  predicate MatchAt(s: string, sub: string, i: nat) {
    i + |sub| <= |s| && s[i..i + |sub|] == sub
  }

  /** `s.startswith(p)`. */
  predicate StartsWith(s: string, p: string) {
    |p| <= |s| && s[..|p|] == p
  }

  /** A character of `sub` that does not occur in `s` rules out `sub in s`. */
  lemma NotContainsMissingChar(s: string, sub: string, k: nat)
    requires k < |sub| && sub[k] !in s
    ensures !Contains(s, sub)
  {
    forall i: nat | i + |sub| <= |s|
      ensures !MatchAt(s, sub, i)
    {
      assert s[i..i + |sub|][k] == s[i + k];
      assert s[i + k] in s;
    }
  }

  lemma ContainsAt(s: string, sub: string, i: nat)
    requires MatchAt(s, sub, i)
    ensures Contains(s, sub)
  {
  }

  /** Text found inside the middle of five pieces is found in the whole. */
  lemma ContainsMiddleOfFive(a: string, b: string, c: string, d: string, e: string, sep: string, sub: string)
    requires Contains(c, sub)
    ensures Contains(a + sep + b + sep + c + sep + d + sep + e, sub)
  {
    var i: nat :| i <= |c| && MatchAt(c, sub, i);
    var s := a + sep + b + sep + c + sep + d + sep + e;
    var k := |a + sep + b + sep|;
    assert s == (a + sep + b + sep) + c + (sep + d + sep + e);
    assert s[k + i..k + i + |sub|] == c[i..i + |sub|];
    assert MatchAt(s, sub, k + i);
  }

  /** Text followed by its last piece contains that piece. */
  lemma ContainsBeforeLast(x: string, sub: string, y: string)
    ensures Contains(x + sub + y, sub)
  {
    assert (x + sub + y)[|x|..|x| + |sub|] == sub;
    assert MatchAt(x + sub + y, sub, |x|);
  }

  /** Python's `s.replace(old, new)`: every non-overlapping occurrence of `pat`,
      scanning from the left, is replaced by `rep`; an empty `pat` inserts `rep`
      before every character and at the end. */
  function Replace(s: string, pat: string, rep: string): string
    decreases |s|
  {
    if |pat| == 0 then InsertEverywhere(s, rep)
    else if |s| < |pat| then s
    else if s[..|pat|] == pat then rep + Replace(s[|pat|..], pat, rep)
    else [s[0]] + Replace(s[1..], pat, rep)
  }

  function InsertEverywhere(s: string, rep: string): string {
    if s == [] then rep else rep + [s[0]] + InsertEverywhere(s[1..], rep)
  }

  /** Text without an occurrence of `pat` is left as it is. */
  lemma {:induction false} ReplaceAbsent(s: string, pat: string, rep: string)
    requires |pat| > 0 && !Contains(s, pat)
    ensures Replace(s, pat, rep) == s
    decreases |s|
  {
    if |s| >= |pat| {
      assert !MatchAt(s, pat, 0);
      forall i: nat | i + |pat| <= |s| - 1
        ensures !MatchAt(s[1..], pat, i)
      {
        assert s[1..][i..i + |pat|] == s[i + 1..i + 1 + |pat|];
        assert !MatchAt(s, pat, i + 1);
      }
      ReplaceAbsent(s[1..], pat, rep);
    }
  }

  /** Text that is exactly `pat` becomes exactly `rep`. */
  lemma ReplaceWhole(pat: string, rep: string)
    requires |pat| > 0
    ensures Replace(pat, pat, rep) == rep
  {
    assert pat[|pat|..] == [];
  }

  /** A pattern longer than the text does not occur in it. */
  lemma LongerNotContained(s: string, sub: string)
    requires |sub| > |s|
    ensures !Contains(s, sub)
  {
  }

  /** The replacements applied one after another, in list order, each to the text
      the previous ones produced. */
  function ReplaceAll(s: string, reps: seq<(string, string)>): string
    decreases |reps|
  {
    if reps == [] then s else ReplaceAll(Replace(s, reps[0].0, reps[0].1), reps[1..])
  }

  /** The replacement loop `for (old, new) in reps: text = text.replace(old, new)`. */
  method ApplyReplacements(text: string, reps: seq<(string, string)>) returns (r: string)
    ensures r == ReplaceAll(text, reps)
  {
    r := text;
    var i := 0;
    while i < |reps|
      invariant 0 <= i <= |reps|
      invariant ReplaceAll(r, reps[i..]) == ReplaceAll(text, reps)
    {
      assert reps[i..][1..] == reps[i + 1..];
      r := Replace(r, reps[i].0, reps[i].1);
      i := i + 1;
    }
  }

  /** Text in which no pattern's first character occurs is left as it is. */
  lemma {:induction false} ReplaceAllUntouched(s: string, reps: seq<(string, string)>)
    requires forall i :: 0 <= i < |reps| ==> |reps[i].0| > 0 && reps[i].0[0] !in s
    ensures ReplaceAll(s, reps) == s
  {
    if reps != [] {
      NotContainsMissingChar(s, reps[0].0, 0);
      ReplaceAbsent(s, reps[0].0, reps[0].1);
      assert forall i :: 0 <= i < |reps| - 1 ==> reps[1..][i] == reps[i + 1];
      ReplaceAllUntouched(s, reps[1..]);
    }
  }

  /** Each occurrence of character `c` replaced by `rep`, all others kept. */
  function ReplaceChar(s: string, c: char, rep: string): string {
    if s == [] then [] else (if s[0] == c then rep else [s[0]]) + ReplaceChar(s[1..], c, rep)
  }

  /** Replacing a one-character pattern is a per-character substitution. */
  lemma {:induction false} ReplaceOneChar(s: string, c: char, rep: string)
    ensures Replace(s, [c], rep) == ReplaceChar(s, c, rep)
  {
    if s != [] {
      ReplaceOneChar(s[1..], c, rep);
      assert s[..1] == [s[0]];
    }
  }

  lemma {:induction false} ReplaceCharConcat(a: string, b: string, c: char, rep: string)
    ensures ReplaceChar(a + b, c, rep) == ReplaceChar(a, c, rep) + ReplaceChar(b, c, rep)
  {
    if a != [] {
      assert (a + b)[1..] == a[1..] + b;
      ReplaceCharConcat(a[1..], b, c, rep);
    } else {
      assert a + b == b;
    }
  }

  /** Python's `str.lower()` on the Latin and Cyrillic letters the bot meets. */
  function LowerChar(c: char): char {
    if 'A' <= c <= 'Z' then (c as int + 32) as char
    else if '\U{410}' <= c <= '\U{42F}' then (c as int + 32) as char
    else if '\U{400}' <= c <= '\U{40F}' then (c as int + 80) as char
    else c
  }

  function Lower(s: string): (r: string)
    ensures |r| == |s|
  {
    seq(|s|, i requires 0 <= i < |s| => LowerChar(s[i]))
  }

  predicate IsDigit(c: char) {
    '0' <= c <= '9'
  }

  predicate AllDigits(s: string) {
    forall i :: 0 <= i < |s| ==> IsDigit(s[i])
  }

  /** The value of a string of decimal digits. */
  function DigitsValue(s: string): nat
    requires AllDigits(s)
  {
    if s == [] then 0 else DigitsValue(s[..|s| - 1]) * 10 + (s[|s| - 1] as int - '0' as int)
  }

  /** Python's `int(t)` on a decimal literal: surrounding whitespace, an optional
      sign and at least one digit; anything else is a ValueError (None). */
  function ParseInt(t: string): Option<int> {
    var u := Strip(t);
    if |u| >= 2 && (u[0] == '-' || u[0] == '+') && AllDigits(u[1..]) then
      var v: int := DigitsValue(u[1..]);
      Some(if u[0] == '-' then -v else v)
    else if |u| >= 1 && AllDigits(u) then
      Some(DigitsValue(u))
    else
      None
  }

  function DigitChar(d: nat): (c: char)
    requires d < 10
    ensures IsDigit(c) && c as int - '0' as int == d
  {
    ('0' as int + d) as char
  }

  /** `str(n)` for a natural number; it reads back as `n`. */
  function NatToString(n: nat): (r: string)
    ensures |r| >= 1 && AllDigits(r)
    ensures DigitsValue(r) == n
  {
    if n < 10 then [DigitChar(n)]
    else
      var r := NatToString(n / 10) + [DigitChar(n % 10)];
      assert r[..|r| - 1] == NatToString(n / 10);
      r
  }

  /** `str(i)`. */
  function IntToString(i: int): string {
    if i < 0 then "-" + NatToString(-i) else NatToString(i)
  }

  lemma IntToStringShape(i: int)
    ensures IntToString(i) != [] && NoSpace(IntToString(i)) && Trimmed(IntToString(i))
    ensures forall k :: 0 <= k < |IntToString(i)| ==> IsDigit(IntToString(i)[k]) || IntToString(i)[k] == '-'
  {
  }

  lemma IntToStringOneLine(i: int)
    ensures '\n' !in IntToString(i)
  {
    IntToStringShape(i);
  }

  /** `int(str(i)) == i`. */
  lemma ParseIntToString(i: int)
    ensures ParseInt(IntToString(i)) == Some(i)
  {
    var s := IntToString(i);
    IntToStringShape(i);
    TrimmedIsFixed(s);
    if i < 0 {
      assert s[1..] == NatToString(-i);
    } else {
      assert !(s[0] == '-' || s[0] == '+');
    }
  }

  /** `"%02d" % n`, the zero padding of strftime's numeric fields. */
  function Pad2(n: int): string {
    if 0 <= n < 10 then "0" + NatToString(n) else IntToString(n)
  }
}
