/**
 * The JavaScript string operations the controllers rely on: `trim`,
 * `split` on one separator character, ASCII case mapping and a
 * case-insensitive substring test. Lengths count characters.
 */
module JsString {

  /** The characters `String.prototype.trim` strips: ECMAScript's WhiteSpace
      (tab, vertical tab, form feed, space, no-break space, the byte order
      mark and the other space separators) and LineTerminator characters. */
  predicate IsSpace(c: char) {
    || c == ' ' || c == '\t' || c == '\n' || c == '\r' || c == '\U{B}' || c == '\U{C}'
    || c == '\U{A0}' || c == '\U{1680}' || ('\U{2000}' <= c <= '\U{200A}')
    || c == '\U{2028}' || c == '\U{2029}' || c == '\U{202F}' || c == '\U{205F}'
    || c == '\U{3000}' || c == '\U{FEFF}'
  }

  /** `s` with its leading white space removed. */
  function TrimStart(s: string): (r: string)
    ensures |r| <= |s| && r == s[|s| - |r|..]
    ensures r != [] ==> !IsSpace(r[0])
    ensures forall i :: 0 <= i < |s| - |r| ==> IsSpace(s[i])
  {
    if s != [] && IsSpace(s[0]) then TrimStart(s[1..]) else s
  }

  /** `s` with its trailing white space removed. */
  function TrimEnd(s: string): (r: string)
    ensures |r| <= |s| && r == s[..|r|]
    ensures r != [] ==> !IsSpace(r[|r| - 1])
    ensures forall i :: |r| <= i < |s| ==> IsSpace(s[i])
  {
    if s != [] && IsSpace(s[|s| - 1]) then TrimEnd(s[..|s| - 1]) else s
  }

  /** `s.trim()`: the slice of `s` left once its leading white space (the
      first `Leading(s)` characters) and its trailing white space are cut. */
  function Trim(s: string): (r: string)
    ensures Leading(s) + |r| <= |s| && r == s[Leading(s)..Leading(s) + |r|]
    ensures forall i :: 0 <= i < Leading(s) ==> IsSpace(s[i])
    ensures forall i :: Leading(s) + |r| <= i < |s| ==> IsSpace(s[i])
    ensures IsTrimmed(r)
    ensures r == [] <==> forall i :: 0 <= i < |s| ==> IsSpace(s[i])
  {
    var t := TrimStart(s);
    var r := TrimEnd(t);
    CutBothEnds(s, t, r);
    assert Leading(s) == |s| - |t|;
    assert r != [] ==> r[0] == t[0];
    r
  }

  /** A prefix `r` of a suffix `t` of `s`, with only white space before `t`
      and behind `r`, is a slice of `s` with only white space around it. */
  lemma CutBothEnds(s: string, t: string, r: string)
    requires |t| <= |s| && t == s[|s| - |t|..] && forall i :: 0 <= i < |s| - |t| ==> IsSpace(s[i])
    requires |r| <= |t| && r == t[..|r|] && forall i :: |r| <= i < |t| ==> IsSpace(t[i])
    ensures r == s[|s| - |t|..|s| - |t| + |r|]
    ensures forall i :: |s| - |t| + |r| <= i < |s| ==> IsSpace(s[i])
  {
    forall i | |s| - |t| + |r| <= i < |s| ensures IsSpace(s[i]) {
      assert s[i] == t[i - (|s| - |t|)];
    }
  }

  /** The length of the run of white space `s` starts with. */
  function Leading(s: string): (n: nat)
    ensures n <= |s|
  {
    |s| - |TrimStart(s)|
  }

  /** `trim` is the only way to cut white space from both ends of `s` and
      leave a text with none at either end: any such slice is `Trim(s)`. */
  lemma TrimIsUnique(s: string, i: nat, j: nat)
    requires i <= j <= |s| && IsTrimmed(s[i..j])
    requires forall k :: 0 <= k < i ==> IsSpace(s[k])
    requires forall k :: j <= k < |s| ==> IsSpace(s[k])
    ensures Trim(s) == s[i..j]
  {
    var r := Trim(s);
    var l := Leading(s);
    if i < j {
      assert s[i] == s[i..j][0] && s[j - 1] == s[i..j][j - i - 1];
      assert r != [];
      assert s[l] == r[0] && s[l + |r| - 1] == r[|r| - 1];
      assert i == l && j == l + |r|;
    } else {
      assert forall k :: 0 <= k < |s| ==> IsSpace(s[k]);
    }
  }

  /** A text with no white space at either end. */
  predicate IsTrimmed(s: string) {
    s == [] || (!IsSpace(s[0]) && !IsSpace(s[|s| - 1]))
  }

  /** A text is trimmed exactly when `trim` leaves it as it is. */
  lemma TrimmedIsFixed(s: string)
    ensures IsTrimmed(s) <==> Trim(s) == s
  {
    if IsTrimmed(s) {
      assert TrimStart(s) == s;
      assert TrimEnd(s) == s;
    }
  }

  /** Trimming twice trims no more than trimming once. */
  lemma TrimIdempotent(s: string)
    ensures Trim(Trim(s)) == Trim(s)
  {
    var r := Trim(s);
    assert TrimStart(r) == r;
    assert TrimEnd(r) == r;
  }

  /** Trimming removes characters and adds none. */
  lemma TrimKeepsOut(s: string, c: char)
    requires c !in s
    ensures c !in Trim(s)
  {
    var t := TrimStart(s);
    var r := TrimEnd(t);
    forall i | 0 <= i < |r| ensures r[i] != c {
      assert r[i] == t[i] == s[|s| - |t| + i];
    }
  }

  /** The pieces of `parts` glued back together with `sep` between them. */
  function Join(parts: seq<string>, sep: char): string {
    if |parts| == 0 then ""
    else if |parts| == 1 then parts[0]
    else parts[0] + [sep] + Join(parts[1..], sep)
  }

  /** `s.split(sep)` for a one-character separator: the maximal pieces of `s`
      free of `sep`; there is always at least one, possibly empty. */
  function Split(s: string, sep: char): (r: seq<string>)
    ensures |r| >= 1
    ensures forall i :: 0 <= i < |r| ==> sep !in r[i]
    ensures Join(r, sep) == s
  {
    if s == [] then [""]
    else
      var rest := Split(s[1..], sep);
      if s[0] == sep then
        assert ([""] + rest)[1..] == rest;
        [""] + rest
      else
        var r := [[s[0]] + rest[0]] + rest[1..];
        assert r[1..] == rest[1..];
        assert |rest| > 1 ==> Join(rest, sep) == rest[0] + [sep] + Join(rest[1..], sep);
        r
  }

  /** The last piece of `s.split(sep)` is a suffix of `s` that is all of `s`
      or sits right after a separator. */
  lemma {:induction false} LastPieceIsSuffix(s: string, sep: char)
    ensures var p := Split(s, sep); var w := p[|p| - 1];
      |w| <= |s| && w == s[|s| - |w|..] && (|w| < |s| ==> s[|s| - |w| - 1] == sep)
  {
    if s != [] {
      LastPieceIsSuffix(s[1..], sep);
      var rest := Split(s[1..], sep);
      var p := Split(s, sep);
      assert p[|p| - 1] == rest[|rest| - 1] || (|rest| == 1 && s[0] != sep);
    }
  }

  /** A text without a separator splits into itself alone. */
  lemma {:induction false} SplitWithoutSeparator(s: string, sep: char)
    requires sep !in s
    ensures Split(s, sep) == [s]
  {
    if s != [] {
      SplitWithoutSeparator(s[1..], sep);
    }
  }

  /** The text after the last `sep` of `s`, or all of `s` when it has none. */
  function AfterLast(s: string, sep: char): (r: string)
    ensures |r| <= |s| && sep !in r
  {
    if s == [] || s[|s| - 1] == sep then []
    else AfterLast(s[..|s| - 1], sep) + [s[|s| - 1]]
  }

  /** `AfterLast` is the suffix of `s` that follows its last separator. */
  lemma {:induction false} AfterLastIsSuffix(s: string, sep: char)
    ensures var r := AfterLast(s, sep);
      r == s[|s| - |r|..] && (|r| < |s| ==> s[|s| - |r| - 1] == sep)
  {
    if s != [] && s[|s| - 1] != sep {
      var init := s[..|s| - 1];
      AfterLastIsSuffix(init, sep);
      var ri := AfterLast(init, sep);
      var k := |init| - |ri|;
      assert AfterLast(s, sep) == ri + [s[|s| - 1]];
      assert s[k..] == init[k..] + [s[|s| - 1]];
      assert k > 0 ==> s[k - 1] == init[k - 1];
    }
  }

  /** The last piece of `s.split(sep)` is the text after the last `sep`. */
  lemma LastPieceIsAfterLast(s: string, sep: char)
    ensures var p := Split(s, sep); p[|p| - 1] == AfterLast(s, sep)
  {
    var p := Split(s, sep);
    var w := p[|p| - 1];
    var a := AfterLast(s, sep);
    LastPieceIsSuffix(s, sep);
    AfterLastIsSuffix(s, sep);
    NoSeparatorReachesBack(s, w, a, sep);
    NoSeparatorReachesBack(s, a, w, sep);
  }

  /** A suffix `x` of `s` free of `sep` reaches no further back than a suffix
      `y` that is all of `s` or follows a `sep`. */
  lemma NoSeparatorReachesBack(s: string, x: string, y: string, sep: char)
    requires |x| <= |s| && x == s[|s| - |x|..] && sep !in x
    requires |y| <= |s| && y == s[|s| - |y|..] && (|y| < |s| ==> s[|s| - |y| - 1] == sep)
    ensures |x| <= |y| && (|x| == |y| ==> x == y)
  {
    forall k | |s| - |x| <= k < |s|
      ensures s[k] != sep
    {
      assert s[k] == x[k - (|s| - |x|)];
    }
  }

  /** `c.toUpperCase()` on ASCII letters; other characters are kept. */
  function UpperAscii(c: char): (r: char)
    ensures !('a' <= r <= 'z')
    ensures IsSpace(r) <==> IsSpace(c)
  {
    if 'a' <= c <= 'z' then (c as int - 32) as char else c
  }

  /** `c.toLowerCase()` on ASCII letters; other characters are kept. */
  function LowerAscii(c: char): (r: char)
    ensures !('A' <= r <= 'Z')
  {
    if 'A' <= c <= 'Z' then (c as int + 32) as char else c
  }

  /** `s.toLowerCase()` on ASCII letters. */
  function Lower(s: string): (r: string)
    ensures |r| == |s|
    ensures forall i :: 0 <= i < |s| ==> r[i] == LowerAscii(s[i])
  {
    seq(|s|, i requires 0 <= i < |s| => LowerAscii(s[i]))
  }

  /** Lower-casing twice is lower-casing once. */
  lemma LowerIdempotent(s: string)
    ensures Lower(Lower(s)) == Lower(s)
  {
    assert forall i :: 0 <= i < |s| ==> LowerAscii(LowerAscii(s[i])) == LowerAscii(s[i]);
  }

  /** Two texts that differ at most in ASCII letter case. */
  predicate EqualIgnoringCase(a: string, b: string) {
    |a| == |b| && forall i :: 0 <= i < |a| ==> LowerAscii(a[i]) == LowerAscii(b[i])
  }

  /** `pattern` occurs in `text` at position `i`, up to case. */
  predicate MatchesAt(text: string, pattern: string, i: int) {
    0 <= i <= |text| - |pattern| && EqualIgnoringCase(text[i..i + |pattern|], pattern)
  }

  /** `new RegExp(pattern, "i").test(text)` for a pattern without regular
      expression metacharacters: `pattern` occurs in `text` up to case. */
  predicate ContainsIgnoringCase(text: string, pattern: string) {
    exists i | 0 <= i <= |text| - |pattern| :: MatchesAt(text, pattern, i)
  }
}
