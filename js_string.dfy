/**
 * The JavaScript string operations the core relies on, written out as the
 * ECMAScript library defines them: `trim`, `startsWith`, a global
 * single-character `replace`, `split` and `join` on one separator character,
 * `toLowerCase` (restricted to ASCII letters), `includes` and the `<`
 * comparison of two strings.
 */
module JsString {

  /** ECMAScript LineTerminator: LF, CR, LINE SEPARATOR, PARAGRAPH SEPARATOR. */
  predicate IsLineTerminator(c: char) {
    c == '\n' || c == '\r' || c == '\U{2028}' || c == '\U{2029}'
  }

  /**
   * ECMAScript WhiteSpace plus LineTerminator: the characters `trim` removes,
   * which are also the characters `\s` matches in a regular expression.
   */
  predicate IsWhitespace(c: char) {
    || IsLineTerminator(c)
    || c == '\t' || c == '\U{000B}' || c == '\U{000C}' || c == ' '
    || c == '\U{00A0}' || c == '\U{1680}' || ('\U{2000}' <= c <= '\U{200A}')
    || c == '\U{202F}' || c == '\U{205F}' || c == '\U{3000}' || c == '\U{FEFF}'
  }

  /** Every character of `s` is whitespace (also true of the empty string). */
  predicate IsBlank(s: string) {
    forall i :: 0 <= i < |s| ==> IsWhitespace(s[i])
  }

  /** `s.startsWith(p)` */
  predicate StartsWith(s: string, p: string) {
    |p| <= |s| && s[..|p|] == p
  }

  /** The number of leading whitespace characters: what `\s+` or `trimStart` takes. */
  function WhitespaceRun(s: string): (n: nat)
    ensures n <= |s|
    ensures IsBlank(s[..n])
    ensures n == |s| || !IsWhitespace(s[n])
    decreases |s|
  {
    if s != [] && IsWhitespace(s[0]) then
      var n := 1 + WhitespaceRun(s[1..]);
      assert forall i :: 1 <= i < n ==> s[..n][i] == s[1..][..n - 1][i - 1];
      n
    else 0
  }

  /** The number of trailing whitespace characters. */
  function TrailingWhitespace(s: string): (n: nat)
    ensures n <= |s|
    ensures IsBlank(s[|s| - n..])
    ensures n == |s| || !IsWhitespace(s[|s| - n - 1])
    decreases |s|
  {
    if s != [] && IsWhitespace(s[|s| - 1]) then
      var n := 1 + TrailingWhitespace(s[..|s| - 1]);
      assert s[|s| - n..] == s[..|s| - 1][|s| - n..] + [s[|s| - 1]];
      BlankConcat(s[..|s| - 1][|s| - n..], [s[|s| - 1]]);
      n
    else 0
  }

  /** Leading whitespace removed: what is left is a suffix of `s`. */
  function TrimStart(s: string): (r: string)
    ensures |r| <= |s| && r == s[|s| - |r|..]
    ensures IsBlank(s[..|s| - |r|])
    ensures r == [] || !IsWhitespace(r[0])
  {
    s[WhitespaceRun(s)..]
  }

  /** Trailing whitespace removed: what is left is a prefix of `s`. */
  function TrimEnd(s: string): (r: string)
    ensures |r| <= |s| && r == s[..|r|]
    ensures IsBlank(s[|r|..])
    ensures r == [] || !IsWhitespace(r[|r| - 1])
  {
    s[..|s| - TrailingWhitespace(s)]
  }

  lemma TrimStartEmpty(s: string)
    ensures TrimStart(s) == [] <==> IsBlank(s)
  {
    var r := TrimStart(s);
    if r == [] {
      assert s[..|s|] == s;
    } else {
      assert r[0] == s[|s| - |r|];
    }
  }

  lemma TrimEndEmpty(s: string)
    ensures TrimEnd(s) == [] <==> IsBlank(s)
  {
    var r := TrimEnd(s);
    if r == [] {
      assert s[0..] == s;
    } else {
      assert r[|r| - 1] == s[|r| - 1];
    }
  }

  /**
   * `s.trim()`: empty exactly for a blank string, and otherwise neither
   * starting nor ending with whitespace.
   */
  function Trim(s: string): (r: string)
    ensures r == [] <==> IsBlank(s)
    ensures r == [] || (!IsWhitespace(r[0]) && !IsWhitespace(r[|r| - 1]))
  {
    var t := TrimStart(s);
    TrimStartEmpty(s);
    TrimEndEmpty(t);
    TrimBothEnds(s, t, TrimEnd(t));
    TrimEnd(t)
  }

  lemma TrimBothEnds(s: string, t: string, r: string)
    requires (t == [] <==> IsBlank(s)) && (t == [] || !IsWhitespace(t[0]))
    requires (r == [] <==> IsBlank(t)) && |r| <= |t| && r == t[..|r|]
    requires r == [] || !IsWhitespace(r[|r| - 1])
    ensures r == [] <==> IsBlank(s)
    ensures r == [] || (!IsWhitespace(r[0]) && !IsWhitespace(r[|r| - 1]))
  {
    assert r == [] || r[0] == t[0];
  }

  /** A string that neither starts nor ends with whitespace is its own trim. */
  lemma TrimKeeps(s: string)
    requires s != [] && !IsWhitespace(s[0]) && !IsWhitespace(s[|s| - 1])
    ensures Trim(s) == s
  {
    assert TrimStart(s) == s;
    assert TrimEnd(s) == s;
  }

  lemma BlankConcat(a: string, b: string)
    requires IsBlank(a) && IsBlank(b)
    ensures IsBlank(a + b)
  {
    forall i | 0 <= i < |a + b| ensures IsWhitespace((a + b)[i]) {
      if i < |a| { assert (a + b)[i] == a[i]; } else { assert (a + b)[i] == b[i - |a|]; }
    }
  }

  /** What `trim` keeps is an infix of `s` between a blank prefix and a blank suffix. */
  lemma TrimInfix(s: string)
    ensures var r, k := Trim(s), |s| - |TrimStart(s)|;
      0 <= k <= |s| - |r| && r == s[k..k + |r|] && IsBlank(s[..k]) && IsBlank(s[k + |r|..])
  {
    var t := TrimStart(s);
    var r := TrimEnd(t);
    var k := |s| - |t|;
    assert Trim(s) == r;
    assert s[k + |r|..] == t[|r|..];
    assert r == s[k..k + |r|];
  }

  /** `s.replace(/c/g, rep)`: every occurrence of the character `c` becomes `rep`. */
  function ReplaceAll(s: string, c: char, rep: string): (r: string)
    ensures c !in s ==> r == s
    ensures c !in rep ==> c !in r
    ensures forall x :: x in r ==> x in s || x in rep
    decreases |s|
  {
    if s == [] then []
    else (if s[0] == c then rep else [s[0]]) + ReplaceAll(s[1..], c, rep)
  }

  /** `s.split(sep)` for a one-character separator: always at least one piece. */
  function Split(s: string, sep: char): (r: seq<string>)
    ensures |r| >= 1
    ensures forall i :: 0 <= i < |r| ==> sep !in r[i]
    decreases |s|
  {
    if s == [] then [[]]
    else
      var rest := Split(s[1..], sep);
      if s[0] == sep then [[]] + rest
      else [[s[0]] + rest[0]] + rest[1..]
  }

  /** Every character of a piece of a split comes from the string that was split. */
  lemma {:induction false} SplitChars(s: string, sep: char, c: char)
    requires c !in s
    ensures forall i :: 0 <= i < |Split(s, sep)| ==> c !in Split(s, sep)[i]
    decreases |s|
  {
    if s != [] {
      SplitChars(s[1..], sep, c);
      var rest := Split(s[1..], sep);
      if s[0] == sep {
        assert forall i :: 1 <= i < |rest| + 1 ==> ([[]] + rest)[i] == rest[i - 1];
      } else {
        assert forall i :: 1 <= i < |rest| ==> ([[s[0]] + rest[0]] + rest[1..])[i] == rest[i];
      }
    }
  }

  /** `parts.join(sep)` */
  function Join(parts: seq<string>, sep: char): (r: string)
    ensures forall i, x :: 0 <= i < |parts| && x in parts[i] ==> x in r
    ensures forall x :: x in r ==> x == sep || exists i :: 0 <= i < |parts| && x in parts[i]
    decreases |parts|
  {
    if |parts| == 0 then []
    else if |parts| == 1 then parts[0]
    else
      var r := parts[0] + [sep] + Join(parts[1..], sep);
      assert forall i :: 1 <= i < |parts| ==> parts[i] == parts[1..][i - 1];
      r
  }

  /** Joining the pieces of a split restores the original string. */
  lemma {:induction false} JoinSplit(s: string, sep: char)
    ensures Join(Split(s, sep), sep) == s
    decreases |s|
  {
    if s != [] {
      var rest := Split(s[1..], sep);
      JoinSplit(s[1..], sep);
      if s[0] == sep {
        assert ([[]] + rest)[1..] == rest;
      } else if |rest| == 1 {
        assert [s[0]] + rest[0] == s;
      } else {
        var parts := [[s[0]] + rest[0]] + rest[1..];
        assert parts[1..] == rest[1..];
        assert Join(rest, sep) == rest[0] + [sep] + Join(rest[1..], sep);
      }
    }
  }

  /** Splitting a string that does not contain the separator gives it back whole. */
  lemma {:induction false} SplitFree(s: string, sep: char)
    requires sep !in s
    ensures Split(s, sep) == [s]
    decreases |s|
  {
    if s != [] {
      SplitFree(s[1..], sep);
      assert [s[0]] + s[1..] == s;
    }
  }

  lemma {:induction false} SplitAfterPiece(p: string, sep: char, t: string)
    requires sep !in p
    ensures Split(p + [sep] + t, sep) == [p] + Split(t, sep)
    decreases |p|
  {
    var s := p + [sep] + t;
    if p == [] {
      assert s[1..] == t;
    } else {
      assert s[1..] == p[1..] + [sep] + t;
      SplitAfterPiece(p[1..], sep, t);
      assert [p[0]] + p[1..] == p;
    }
  }

  /** Splitting a join of separator-free pieces gives the pieces back. */
  lemma {:induction false} SplitJoin(parts: seq<string>, sep: char)
    requires |parts| >= 1
    requires forall i :: 0 <= i < |parts| ==> sep !in parts[i]
    ensures Split(Join(parts, sep), sep) == parts
    decreases |parts|
  {
    if |parts| == 1 {
      SplitFree(parts[0], sep);
    } else {
      SplitJoin(parts[1..], sep);
      SplitAfterPiece(parts[0], sep, Join(parts[1..], sep));
      assert [parts[0]] + parts[1..] == parts;
    }
  }

  /** `toLowerCase` on one character, for the ASCII letters. */
  function ToLowerChar(c: char): char {
    if 'A' <= c <= 'Z' then (c as int - 'A' as int + 'a' as int) as char else c
  }

  /** `s.toLowerCase()`, for the ASCII letters. */
  function Lower(s: string): (r: string)
    ensures |r| == |s|
    ensures forall i :: 0 <= i < |s| ==> r[i] == ToLowerChar(s[i])
  {
    seq(|s|, i requires 0 <= i < |s| => ToLowerChar(s[i]))
  }

  /** `needle` occurs in `hay` at position `i`. */
  ghost predicate OccursAt(hay: string, needle: string, i: int) {
    0 <= i <= |hay| - |needle| && hay[i..i + |needle|] == needle
  }

  /** `hay.includes(needle)`, scanning left to right. */
  function Includes(hay: string, needle: string): (b: bool)
    decreases |hay|
  {
    StartsWith(hay, needle) || (|hay| > 0 && Includes(hay[1..], needle))
  }

  lemma {:induction false} IncludesAt(hay: string, needle: string, i: int)
    requires OccursAt(hay, needle, i)
    ensures Includes(hay, needle)
    decreases i
  {
    if i == 0 {
      assert hay[..|needle|] == hay[0..|needle|];
    } else {
      assert hay[1..][i - 1..i - 1 + |needle|] == hay[i..i + |needle|];
      IncludesAt(hay[1..], needle, i - 1);
    }
  }

  lemma {:induction false} IncludesWitness(hay: string, needle: string)
    requires Includes(hay, needle)
    ensures exists i :: OccursAt(hay, needle, i)
    decreases |hay|
  {
    if StartsWith(hay, needle) {
      assert OccursAt(hay, needle, 0);
    } else {
      IncludesWitness(hay[1..], needle);
      var i :| OccursAt(hay[1..], needle, i);
      assert hay[1..][i..i + |needle|] == hay[i + 1..i + 1 + |needle|];
      assert OccursAt(hay, needle, i + 1);
    }
  }

  /** `includes` holds exactly when the needle occurs at some position. */
  lemma IncludesIff(hay: string, needle: string)
    ensures Includes(hay, needle) <==> exists i :: OccursAt(hay, needle, i)
  {
    if Includes(hay, needle) {
      IncludesWitness(hay, needle);
    }
    forall i | OccursAt(hay, needle, i) ensures Includes(hay, needle) {
      IncludesAt(hay, needle, i);
    }
  }
  // ---------------------------------------------------------------------
  // Keeping an infix
  // ---------------------------------------------------------------------

  /** An occurrence found by `includes`, as the text before it and the text after it. */
  lemma {:induction false} IncludesParts(hay: string, needle: string) returns (a: string, b: string)
    requires Includes(hay, needle)
    ensures hay == a + needle + b
    decreases |hay|
  {
    if StartsWith(hay, needle) {
      a, b := [], hay[|needle|..];
      assert hay == hay[..|needle|] + hay[|needle|..];
    } else {
      var a1, b1 := IncludesParts(hay[1..], needle);
      a, b := [hay[0]] + a1, b1;
      assert hay == [hay[0]] + hay[1..];
    }
  }

  lemma InfixIncludes(a: string, needle: string, b: string)
    ensures Includes(a + needle + b, needle)
  {
    assert (a + needle + b)[|a|..|a| + |needle|] == needle;
    IncludesAt(a + needle + b, needle, |a|);
  }

  /**
   * An infix that neither starts nor ends with whitespace survives `trim`:
   * the whitespace `trim` removes lies wholly before or after it.
   */
  lemma TrimKeepsInfix(a: string, t: string, b: string) returns (a2: string, b2: string)
    requires t != [] && !IsWhitespace(t[0]) && !IsWhitespace(t[|t| - 1])
    ensures Trim(a + t + b) == a2 + t + b2
  {
    var s := a + t + b;
    TrimInfix(s);
    var r, k := Trim(s), |s| - |TrimStart(s)|;
    assert s[|a|] == t[0] && s[|a| + |t| - 1] == t[|t| - 1];
    NotInBlankPrefix(s, k, |a|);
    NotInBlankSuffix(s, k + |r|, |a| + |t| - 1);
    a2, b2 := InfixWithin(s, a, t, b, k, k + |r|);
  }

  lemma NotInBlankPrefix(s: string, k: nat, i: nat)
    requires k <= |s| && IsBlank(s[..k]) && i < |s| && !IsWhitespace(s[i])
    ensures k <= i
  {
  }

  lemma NotInBlankSuffix(s: string, m: nat, i: nat)
    requires m <= |s| && IsBlank(s[m..]) && i < |s| && !IsWhitespace(s[i])
    ensures i < m
  {
  }

  /** A slice that covers an infix is the infix with what lies around it inside the slice. */
  lemma InfixWithin(s: string, a: string, t: string, b: string, k: nat, m: nat) returns (a2: string, b2: string)
    requires s == a + t + b && k <= |a| && |a| + |t| <= m <= |s|
    ensures s[k..m] == a2 + t + b2
  {
    a2, b2 := s[k..|a|], s[|a| + |t|..m];
    assert s[|a|..|a| + |t|] == t;
    assert s[k..m] == s[k..|a|] + s[|a|..|a| + |t|] + s[|a| + |t|..m];
  }

  /** Splitting text that begins with a separator-free piece `e`: the first piece begins with `e`. */
  lemma {:induction false} SplitFreeHead(e: string, y: string, sep: char)
    requires sep !in e
    ensures Split(e + y, sep) == [e + Split(y, sep)[0]] + Split(y, sep)[1..]
    decreases |e|
  {
    if e != [] {
      var s := e + y;
      assert s[0] == e[0] && s[1..] == e[1..] + y;
      assert sep !in e[1..] by {
        assert forall c :: c in e[1..] ==> c in e;
      }
      SplitFreeHead(e[1..], y, sep);
      assert [e[0]] + (e[1..] + Split(y, sep)[0]) == e + Split(y, sep)[0];
    } else {
      assert e + y == y;
      var r := Split(y, sep);
      assert e + r[0] == r[0];
      assert r == [r[0]] + r[1..];
    }
  }

  /** A separator-free infix of the text lies wholly inside one piece of the split. */
  lemma {:induction false} SplitKeepsInfix(x: string, e: string, y: string, sep: char) returns (i: nat, p: string, q: string)
    requires sep !in e
    ensures i < |Split(x + e + y, sep)| && Split(x + e + y, sep)[i] == p + e + q
    decreases |x|
  {
    if x == [] {
      assert x + e + y == e + y;
      SplitFreeHead(e, y, sep);
      i, p, q := 0, [], Split(y, sep)[0];
    } else {
      var s := x + e + y;
      assert s[0] == x[0] && s[1..] == x[1..] + e + y;
      var i1, p1, q1 := SplitKeepsInfix(x[1..], e, y, sep);
      var rest := Split(s[1..], sep);
      if x[0] == sep {
        i, p, q := i1 + 1, p1, q1;
        assert Split(s, sep)[i] == rest[i1];
      } else if i1 == 0 {
        i, p, q := 0, [x[0]] + p1, q1;
        assert Split(s, sep)[0] == [x[0]] + rest[0];
      } else {
        i, p, q := i1, p1, q1;
        assert Split(s, sep)[i] == rest[1..][i1 - 1];
      }
    }
  }

  /** Each part appears whole in the join. */
  lemma {:induction false} JoinKeepsPart(parts: seq<string>, i: nat, sep: char) returns (a: string, b: string)
    requires i < |parts|
    ensures Join(parts, sep) == a + parts[i] + b
    decreases |parts|
  {
    if |parts| == 1 {
      a, b := [], [];
    } else if i == 0 {
      a, b := [], [sep] + Join(parts[1..], sep);
    } else {
      var a1, b1 := JoinKeepsPart(parts[1..], i - 1, sep);
      assert parts[1..][i - 1] == parts[i];
      a, b := parts[0] + [sep] + a1, b1;
    }
  }

  /** `a < b` on strings: the first differing character decides, and a proper prefix is smaller. */
  function Less(a: string, b: string): bool
    decreases |a|
  {
    if a == [] then b != []
    else if b == [] then false
    else if a[0] != b[0] then a[0] < b[0]
    else Less(a[1..], b[1..])
  }

  lemma {:induction false} LessIrreflexive(a: string)
    ensures !Less(a, a)
    decreases |a|
  {
    if a != [] {
      LessIrreflexive(a[1..]);
    }
  }

  /** Between strings of one length, `<` is decided at the first position where they differ. */
  lemma {:induction false} LessAt(a: string, b: string, k: nat)
    requires |a| == |b| && k < |a| && a[..k] == b[..k] && a[k] != b[k]
    ensures Less(a, b) <==> a[k] < b[k]
    decreases k
  {
    if k > 0 {
      assert a[0] == a[..k][0] && b[0] == b[..k][0];
      assert a[1..][..k - 1] == a[..k][1..] && b[1..][..k - 1] == b[..k][1..];
      LessAt(a[1..], b[1..], k - 1);
    }
  }

  /** Two different strings of one length differ at a first position. */
  lemma {:induction false} FirstDifference(a: string, b: string)
    requires |a| == |b| && a != b
    ensures exists k :: 0 <= k < |a| && a[..k] == b[..k] && a[k] != b[k]
    decreases |a|
  {
    if a[0] != b[0] {
      assert a[..0] == b[..0];
    } else {
      assert a == [a[0]] + a[1..] && b == [b[0]] + b[1..];
      FirstDifference(a[1..], b[1..]);
      var k :| 0 <= k < |a| - 1 && a[1..][..k] == b[1..][..k] && a[1..][k] != b[1..][k];
      assert a[..k + 1] == [a[0]] + a[1..][..k];
      assert b[..k + 1] == [b[0]] + b[1..][..k];
    }
  }
}
