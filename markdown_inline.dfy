/**
 * The inline phase of parseMarkdown: three global regular-expression
 * replacements over the joined HTML, bold (`**x**`), then italic (`*x*`),
 * then inline code (`` `x` ``), where `x` is one or more characters other
 * than the delimiter character (newlines and markup included).
 *
 * A global `replace` tries the pattern at each position from the left; on a
 * match it emits the replacement and resumes after the match, otherwise it
 * keeps one character and moves on. `Substitute` is that scanner.
 */
module MarkdownInline {
  import opened Wrappers
  import opened JsString

  const StrongOpen := "<strong class=\"article-strong\">"
  const StrongClose := "</strong>"
  const EmOpen := "<em class=\"article-em\">"
  const EmClose := "</em>"
  const CodeOpen := "<code class=\"article-code\">"
  const CodeClose := "</code>"

  /**
   * One replacement: the pattern is `delim`, then `[^c]+` captured, then
   * `delim` again, and a match becomes `open` + capture + `close`.
   */
  datatype Pass = Pass(delim: string, c: char, open: string, close: string)

  /** `/\*\*([^*]+)\*\*\/g` */
  const Bold := Pass("**", '*', StrongOpen, StrongClose)
  /** `/\*([^*]+)\*\/g` */
  const Italic := Pass("*", '*', EmOpen, EmClose)
  /** ``/`([^`]+)`/g`` */
  const Code := Pass("`", '`', CodeOpen, CodeClose)

  /** The delimiter is the excluded character, once or twice. */
  predicate WellFormed(p: Pass) {
    p.delim == [p.c] || p.delim == [p.c, p.c]
  }

  /** The length of the longest prefix of `s` without `c`: what a greedy `[^c]+` can take. */
  function RunWithout(s: string, c: char): (n: nat)
    ensures n <= |s|
    decreases |s|
  {
    if s != [] && s[0] != c then 1 + RunWithout(s[1..], c) else 0
  }

  /** The run has no `c` and stops at a `c` or at the end. */
  lemma {:induction false} RunWithoutSound(s: string, c: char)
    ensures var n := RunWithout(s, c); c !in s[..n] && (n == |s| || s[n] == c)
    decreases |s|
  {
    if s != [] && s[0] != c {
      RunWithoutSound(s[1..], c);
      var n := RunWithout(s, c);
      assert s[..n] == [s[0]] + s[1..][..n - 1];
    }
  }

  /**
   * The length of the capture when the pattern matches at the start of `s`.
   * `[^c]+` cannot give anything back: a shorter capture is followed by a
   * character other than `c`, which the closing delimiter refuses.
   */
  function MatchAt(p: Pass, s: string): (r: Option<nat>)
    ensures r.Some? ==> r.value >= 1 && 2 * |p.delim| + r.value <= |s|
  {
    var d := |p.delim|;
    if StartsWith(s, p.delim) then
      var n := RunWithout(s[d..], p.c);
      if n >= 1 && StartsWith(s[d + n..], p.delim) then Some(n) else None
    else None
  }

  /** `s.replace(pattern, open + '$1' + close)` with the global flag. */
  function Substitute(p: Pass, s: string): string
    decreases |s|
  {
    if s == [] then []
    else if MatchAt(p, s).Some? then
      var n, d := MatchAt(p, s).value, |p.delim|;
      p.open + s[d..d + n] + p.close + Substitute(p, s[2 * d + n..])
    else [s[0]] + Substitute(p, s[1..])
  }

  /** The three passes, in the order parseMarkdown applies them. */
  function InlinePhase(html: string): string {
    Substitute(Code, Substitute(Italic, Substitute(Bold, html)))
  }

  // ---------------------------------------------------------------------
  // Matching
  // ---------------------------------------------------------------------

  /** A match is the delimiter, a capture without `c`, and the delimiter again. */
  lemma MatchAtSound(p: Pass, s: string)
    requires MatchAt(p, s).Some?
    ensures var n, d := MatchAt(p, s).value, |p.delim|;
      s[..d] == p.delim && p.c !in s[d..d + n] && s[d + n..2 * d + n] == p.delim
  {
    var n, d := MatchAt(p, s).value, |p.delim|;
    RunWithoutSound(s[d..], p.c);
    assert s[d..][..n] == s[d..d + n];
    assert s[d + n..][..d] == s[d + n..2 * d + n];
  }

  /** The pattern matches at the start of `delim + x + delim + rest` exactly over `x`. */
  lemma MatchAtDelimited(p: Pass, x: string, rest: string)
    requires WellFormed(p) && x != [] && p.c !in x
    ensures MatchAt(p, p.delim + x + p.delim + rest) == Some(|x|)
  {
    var s := p.delim + x + p.delim + rest;
    var d := |p.delim|;
    assert s[..d] == p.delim;
    assert s[d..] == x + p.delim + rest;
    RunWithoutExact(x + p.delim + rest, p.c, |x|);
    assert s[d + |x|..] == p.delim + rest;
  }

  lemma {:induction false} RunWithoutExact(s: string, c: char, n: nat)
    requires n < |s| && c !in s[..n] && s[n] == c
    ensures RunWithout(s, c) == n
    decreases n
  {
    if n > 0 {
      assert s[0] == s[..n][0];
      assert s[1..][..n - 1] == s[..n][1..];
      RunWithoutExact(s[1..], c, n - 1);
    }
  }

  /** No match can start at a character other than the delimiter's. */
  lemma NoMatchWithout(p: Pass, s: string)
    requires WellFormed(p) && s != [] && s[0] != p.c
    ensures MatchAt(p, s).None?
  {
  }

  // ---------------------------------------------------------------------
  // The scanner
  // ---------------------------------------------------------------------

  lemma SubstituteNoMatch(p: Pass, s: string)
    requires s != [] && MatchAt(p, s).None?
    ensures Substitute(p, s) == [s[0]] + Substitute(p, s[1..])
  {
  }

  lemma SubstituteMatch(p: Pass, s: string)
    requires MatchAt(p, s).Some?
    ensures var n, d := MatchAt(p, s).value, |p.delim|;
      Substitute(p, s) == p.open + s[d..d + n] + p.close + Substitute(p, s[2 * d + n..])
  {
  }

  lemma SeqAssoc(x: string, y: string, z: string)
    ensures x + (y + z) == (x + y) + z
  {
  }

  /** A character other than the delimiter's is kept, and the scan moves on. */
  lemma SubstituteKeeps(p: Pass, s: string)
    requires WellFormed(p) && s != [] && s[0] != p.c
    ensures Substitute(p, s) == [s[0]] + Substitute(p, s[1..])
  {
    NoMatchWithout(p, s);
  }

  /** Text without the delimiter character is passed over unchanged. */
  lemma {:induction false} SubstituteSkips(p: Pass, a: string, b: string)
    requires WellFormed(p) && p.c !in a
    ensures Substitute(p, a + b) == a + Substitute(p, b)
    decreases |a|
  {
    if a == [] {
      assert a + b == b;
    } else {
      var s := a + b;
      assert s[0] == a[0] && s[1..] == a[1..] + b;
      SubstituteKeeps(p, s);
      assert p.c !in a[1..] by {
        assert forall x :: x in a[1..] ==> x in a;
      }
      SubstituteSkips(p, a[1..], b);
      SeqAssoc([a[0]], a[1..], Substitute(p, b));
      assert a == [a[0]] + a[1..];
    }
  }

  /** Replacing in text that has no delimiter character is the identity. */
  lemma SubstituteIdentity(p: Pass, s: string)
    requires WellFormed(p) && p.c !in s
    ensures Substitute(p, s) == s
  {
    SubstituteSkips(p, s, []);
    assert s + [] == s;
  }

  /** A delimited span becomes the pass's tags around the span; scanning resumes after it. */
  lemma {:induction false} SubstituteDelimited(p: Pass, x: string, rest: string)
    requires WellFormed(p) && x != [] && p.c !in x
    ensures Substitute(p, p.delim + x + p.delim + rest) == p.open + x + p.close + Substitute(p, rest)
  {
    var s := p.delim + x + p.delim + rest;
    MatchAtDelimited(p, x, rest);
    SubstituteAt(p, s, |x|);
    SliceParts(s, p.delim, x, rest);
  }

  /** The replacement at a match whose capture has length `n`. */
  lemma {:induction false} SubstituteAt(p: Pass, s: string, n: nat)
    requires MatchAt(p, s) == Some(n)
    ensures Substitute(p, s) == p.open + s[|p.delim|..|p.delim| + n] + p.close + Substitute(p, s[2 * |p.delim| + n..])
  {
    SubstituteMatch(p, s);
  }

  lemma SliceParts(s: string, u: string, x: string, rest: string)
    requires s == u + x + u + rest
    ensures s[|u|..|u| + |x|] == x && s[2 * |u| + |x|..] == rest
  {
  }

  /**
   * Text without the delimiter character survives a pass whole: it lies
   * either between matches or inside one capture, and both are kept.
   */
  lemma {:induction false} SubstituteKeepsInfix(p: Pass, a: string, e: string, b: string) returns (a2: string, b2: string)
    requires WellFormed(p) && e != [] && p.c !in e
    ensures Substitute(p, a + e + b) == a2 + e + b2
    decreases |a|
  {
    if a == [] {
      assert a + e + b == e + b;
      SubstituteSkips(p, e, b);
      a2, b2 := [], Substitute(p, b);
    } else if MatchAt(p, a + e + b).Some? && |a| < 2 * |p.delim| + MatchAt(p, a + e + b).value {
      a2, b2 := KeepsInsideMatch(p, a, e, b);
    } else {
      var k, head := KeepsStep(p, a, e, b);
      var a1, b1 := SubstituteKeepsInfix(p, a[k..], e, b);
      a2, b2 := head + a1, b1;
      Regroup(Substitute(p, a + e + b), head, a1 + e + b1, [], [], a1, e, b1);
      assert b1 + [] + [] == b1;
    }
  }

  /** A first piece lying wholly before `e` is replaced, and the scan resumes on the rest. */
  lemma KeepsStep(p: Pass, a: string, e: string, b: string) returns (k: nat, head: string)
    requires a != []
    requires MatchAt(p, a + e + b).Some? ==> 2 * |p.delim| + MatchAt(p, a + e + b).value <= |a|
    ensures 0 < k <= |a| && Substitute(p, a + e + b) == head + Substitute(p, a[k..] + e + b)
  {
    var s := a + e + b;
    k, head := FirstStep(p, s);
    assert s[k..] == a[k..] + e + b;
  }

  /** The first step of the scan: a match, or one character copied. */
  lemma {:induction false} FirstStep(p: Pass, s: string) returns (k: nat, head: string)
    requires s != []
    ensures MatchAt(p, s).Some? ==> var n, d := MatchAt(p, s).value, |p.delim|;
      k == 2 * d + n && head == p.open + s[d..d + n] + p.close
    ensures MatchAt(p, s).None? ==> k == 1
    ensures 0 < k <= |s| && Substitute(p, s) == head + Substitute(p, s[k..])
  {
    if MatchAt(p, s).Some? {
      k, head := MatchFirst(p, s, MatchAt(p, s).value);
    } else {
      SubstituteNoMatch(p, s);
      k, head := 1, [s[0]];
    }
  }

  lemma {:induction false} MatchFirst(p: Pass, s: string, n: nat) returns (k: nat, head: string)
    requires MatchAt(p, s) == Some(n)
    ensures k == 2 * |p.delim| + n && head == p.open + s[|p.delim|..|p.delim| + n] + p.close
    ensures 0 < k <= |s| && Substitute(p, s) == head + Substitute(p, s[k..])
  {
    SubstituteAt(p, s, n);
    k, head := 2 * |p.delim| + n, p.open + s[|p.delim|..|p.delim| + n] + p.close;
  }

  /** A match reaching past the end of `a` captures all of `e`. */
  lemma KeepsInsideMatch(p: Pass, a: string, e: string, b: string) returns (a2: string, b2: string)
    requires WellFormed(p) && e != [] && p.c !in e
    requires MatchAt(p, a + e + b).Some? && |a| < 2 * |p.delim| + MatchAt(p, a + e + b).value
    ensures Substitute(p, a + e + b) == a2 + e + b2
  {
    var s := a + e + b;
    var k, head := FirstStep(p, s);
    var n, d := MatchAt(p, s).value, |p.delim|;
    InsideCapture(p, a, e, b);
    var x, y := InfixWithin(s, a, e, b, d, d + n);
    a2, b2 := p.open + x, y + p.close + Substitute(p, s[k..]);
    Regroup(Substitute(p, s), p.open, s[d..d + n], p.close, Substitute(p, s[k..]), x, e, y);
  }

  lemma Regroup(whole: string, o: string, t: string, c: string, rest: string, x: string, e: string, y: string)
    requires whole == o + t + c + rest && t == x + e + y
    ensures whole == (o + x) + e + (y + c + rest)
  {
  }

  lemma InsideCapture(p: Pass, a: string, e: string, b: string)
    requires WellFormed(p) && e != [] && p.c !in e
    requires MatchAt(p, a + e + b).Some?
    requires |a| < 2 * |p.delim| + MatchAt(p, a + e + b).value
    ensures var n, d := MatchAt(p, a + e + b).value, |p.delim|;
      d <= |a| && |a| + |e| <= d + n
  {
    var s := a + e + b;
    var n, d := MatchAt(p, s).value, |p.delim|;
    MatchAtSound(p, s);
    assert s[|a|] == e[0];
    assert s[d + n..2 * d + n][0] == s[d + n];
    assert forall j :: |a| <= j < |a| + |e| ==> s[j] == e[j - |a|];
  }

  /** `**x**` becomes a strong element that the later passes leave alone. */
  lemma BoldSpan(x: string)
    requires x != [] && '*' !in x && '`' !in x
    ensures InlinePhase("**" + x + "**") == StrongOpen + x + StrongClose
  {
    TagsFree();
    TagsFreeOfBacktick();
    SubstituteDelimited(Bold, x, []);
    assert Bold.delim + x + Bold.delim + [] == "**" + x + "**";
    assert StrongOpen + x + StrongClose + Substitute(Bold, []) == StrongOpen + x + StrongClose;
    SubstituteIdentity(Italic, StrongOpen + x + StrongClose);
    SubstituteIdentity(Code, StrongOpen + x + StrongClose);
  }

  /** `*x*` becomes an em element. */
  lemma ItalicSpan(x: string)
    requires x != [] && '*' !in x && '`' !in x
    ensures InlinePhase("*" + x + "*") == EmOpen + x + EmClose
  {
    TagsFreeOfBacktick();
    NoDoubleStar(x);
    SubstituteDelimited(Italic, x, []);
    assert Italic.delim + x + Italic.delim + [] == "*" + x + "*";
    assert EmOpen + x + EmClose + Substitute(Italic, []) == EmOpen + x + EmClose;
    SubstituteIdentity(Code, EmOpen + x + EmClose);
  }

  /** `` `x` `` becomes a code element. */
  lemma CodeSpan(x: string)
    requires x != [] && '*' !in x && '`' !in x
    ensures InlinePhase("`" + x + "`") == CodeOpen + x + CodeClose
  {
    var s := "`" + x + "`";
    assert forall i :: 0 <= i < |s| ==> s[i] == '`' || s[i] == x[i - 1];
    SubstituteIdentity(Bold, s);
    SubstituteIdentity(Italic, s);
    SubstituteDelimited(Code, x, []);
    assert Code.delim + x + Code.delim + [] == s;
    assert CodeOpen + x + CodeClose + Substitute(Code, []) == CodeOpen + x + CodeClose;
  }

  /** With a single `*` on each side there is no `**`: the bold pass leaves `*x*` alone. */
  lemma NoDoubleStar(x: string)
    requires x != [] && '*' !in x
    ensures Substitute(Bold, "*" + x + "*") == "*" + x + "*"
  {
    var s := "*" + x + "*";
    assert s[1] == x[0];
    assert MatchAt(Bold, s).None?;
    assert s[1..] == x + "*";
    SubstituteSkips(Bold, x, "*");
    var t := "*";
    assert MatchAt(Bold, t).None?;
    assert t[1..] == [];
  }

  /** The tags the passes insert contain no `*`... */
  lemma TagsFree()
    ensures '*' !in StrongOpen && '*' !in StrongClose && '*' !in EmOpen && '*' !in EmClose
    ensures '*' !in CodeOpen && '*' !in CodeClose
  {
  }

  /** ...and no backtick. */
  lemma TagsFreeOfBacktick()
    ensures '`' !in StrongOpen && '`' !in StrongClose && '`' !in EmOpen && '`' !in EmClose
    ensures '`' !in CodeOpen && '`' !in CodeClose
  {
  }

  /** The italic pass never matches inside a strong element the bold pass made. */
  lemma ItalicSkipsStrong(x: string, rest: string)
    requires '*' !in x
    ensures Substitute(Italic, StrongOpen + x + StrongClose + rest) == StrongOpen + x + StrongClose + Substitute(Italic, rest)
  {
    TagsFree();
    SubstituteSkips(Italic, StrongOpen + x + StrongClose, rest);
  }

  /** The code pass passes over the tags of the two earlier passes. */
  lemma CodeSkipsTags(rest: string)
    ensures Substitute(Code, StrongOpen + rest) == StrongOpen + Substitute(Code, rest)
    ensures Substitute(Code, StrongClose + rest) == StrongClose + Substitute(Code, rest)
    ensures Substitute(Code, EmOpen + rest) == EmOpen + Substitute(Code, rest)
    ensures Substitute(Code, EmClose + rest) == EmClose + Substitute(Code, rest)
  {
    TagsFreeOfBacktick();
    SubstituteSkips(Code, StrongOpen, rest);
    SubstituteSkips(Code, StrongClose, rest);
    SubstituteSkips(Code, EmOpen, rest);
    SubstituteSkips(Code, EmClose, rest);
  }

  // ---------------------------------------------------------------------
  // Markup safety
  // ---------------------------------------------------------------------

  /** `s` begins with one of `tags`. */
  ghost predicate BeginsTag(s: string, tags: seq<string>) {
    exists j :: 0 <= j < |tags| && StartsWith(s, tags[j])
  }

  /** Every `<` in `s` begins one of `tags`: there is no markup but those tags. */
  ghost predicate Safe(s: string, tags: seq<string>) {
    forall i {:trigger BeginsTag(s[i..], tags)} :: 0 <= i < |s| && s[i] == '<' ==> BeginsTag(s[i..], tags)
  }

  /** Every tag is non-empty and itself safe. */
  ghost predicate ClosedTags(tags: seq<string>) {
    forall j :: 0 <= j < |tags| ==> tags[j] != [] && Safe(tags[j], tags)
  }

  /** No tag contains `c`. */
  predicate TagsWithout(tags: seq<string>, c: char) {
    forall j :: 0 <= j < |tags| ==> c !in tags[j]
  }

  lemma StartsWithExtend(s: string, t: string, rest: string)
    requires StartsWith(s, t)
    ensures StartsWith(s + rest, t)
  {
    assert (s + rest)[..|t|] == s[..|t|];
  }

  lemma SafeConcat(a: string, b: string, tags: seq<string>)
    requires Safe(a, tags) && Safe(b, tags)
    ensures Safe(a + b, tags)
  {
    forall i | 0 <= i < |a + b| && (a + b)[i] == '<' ensures BeginsTag((a + b)[i..], tags) {
      if i < |a| {
        assert a[i] == '<' && BeginsTag(a[i..], tags);
        var j :| 0 <= j < |tags| && StartsWith(a[i..], tags[j]);
        assert (a + b)[i..] == a[i..] + b;
        StartsWithExtend(a[i..], tags[j], b);
      } else {
        assert (a + b)[i..] == b[i - |a|..];
        assert b[i - |a|] == '<';
      }
    }
  }

  lemma SafeSuffix(s: string, k: nat, tags: seq<string>)
    requires Safe(s, tags) && k <= |s|
    ensures Safe(s[k..], tags)
  {
    forall i | 0 <= i < |s[k..]| && s[k..][i] == '<' ensures BeginsTag(s[k..][i..], tags) {
      assert s[k..][i..] == s[k + i..];
      assert s[k + i] == '<';
    }
  }

  /** Text without `<` is safe. */
  lemma SafeNoLt(s: string, tags: seq<string>)
    requires '<' !in s
    ensures Safe(s, tags)
  {
    assert forall i :: 0 <= i < |s| ==> s[i] != '<';
  }

  /** A tag whose only `<` is its first character is safe. */
  lemma SafeTag(tags: seq<string>, j: nat)
    requires j < |tags| && |tags[j]| >= 1 && '<' !in tags[j][1..]
    ensures Safe(tags[j], tags)
  {
    var t := tags[j];
    assert forall m :: 1 <= m < |t| ==> t[m] == t[1..][m - 1];
    assert t[0..] == t;
  }

  /** The span of a safe text ending just before a `c` is safe when no tag contains `c`. */
  lemma SafeBefore(s: string, k: nat, n: nat, c: char, tags: seq<string>)
    requires Safe(s, tags) && TagsWithout(tags, c) && k + n < |s| && s[k + n] == c
    ensures Safe(s[k..k + n], tags)
  {
    var x := s[k..k + n];
    forall i | 0 <= i < |x| && x[i] == '<' ensures BeginsTag(x[i..], tags) {
      assert s[k + i] == '<' && BeginsTag(s[k + i..], tags);
      var j :| 0 <= j < |tags| && StartsWith(s[k + i..], tags[j]);
      var t := tags[j];
      assert forall m :: 0 <= m < |t| ==> t[m] == s[k + i + m];
      assert c !in t;
      assert |t| <= n - i;
      assert x[i..][..|t|] == s[k + i..][..|t|];
    }
  }

  /**
   * A pass keeps text safe when its own tags are safe and contain no
   * delimiter character: a match never cuts a tag, and no tag is matched.
   */
  lemma {:induction false} SubstituteSafe(p: Pass, s: string, tags: seq<string>)
    requires WellFormed(p) && ClosedTags(tags) && TagsWithout(tags, p.c)
    requires Safe(p.open, tags) && Safe(p.close, tags)
    requires Safe(s, tags)
    ensures Safe(Substitute(p, s), tags)
    decreases |s|
  {
    if s != [] {
      var k, head := SafeStep(p, s, tags);
      SubstituteSafe(p, s[k..], tags);
      SafeConcat(head, Substitute(p, s[k..]), tags);
    }
  }

  /**
   * One step of the replacement turns a first piece of `k` characters into
   * the safe text `head`; the scan resumes on the (safe) rest.
   */
  lemma SafeStep(p: Pass, s: string, tags: seq<string>) returns (k: nat, head: string)
    requires WellFormed(p) && ClosedTags(tags) && TagsWithout(tags, p.c)
    requires Safe(p.open, tags) && Safe(p.close, tags)
    requires Safe(s, tags) && s != []
    ensures 0 < k <= |s| && Safe(s[k..], tags) && Safe(head, tags)
    ensures Substitute(p, s) == head + Substitute(p, s[k..])
  {
    if s[0] == '<' {
      assert s[0..] == s && BeginsTag(s[0..], tags);
      var j :| 0 <= j < |tags| && StartsWith(s, tags[j]);
      k, head := SafeTagStep(p, s, tags, j);
    } else if MatchAt(p, s).Some? {
      k, head := SafeMatchStep(p, s, tags);
    } else {
      k, head := SafePlainStep(p, s, tags);
    }
  }

  /** A tag at the front is copied whole. */
  lemma SafeTagStep(p: Pass, s: string, tags: seq<string>, j: nat) returns (k: nat, head: string)
    requires WellFormed(p) && ClosedTags(tags) && TagsWithout(tags, p.c)
    requires Safe(s, tags) && j < |tags| && StartsWith(s, tags[j])
    ensures 0 < k <= |s| && Safe(s[k..], tags) && Safe(head, tags)
    ensures Substitute(p, s) == head + Substitute(p, s[k..])
  {
    head := tags[j];
    k := |head|;
    assert s == head + s[k..];
    SubstituteSkips(p, head, s[k..]);
    SafeSuffix(s, k, tags);
  }

  /** A match at the front becomes the pass's tags around the captured text. */
  lemma SafeMatchStep(p: Pass, s: string, tags: seq<string>) returns (k: nat, head: string)
    requires WellFormed(p) && TagsWithout(tags, p.c)
    requires Safe(p.open, tags) && Safe(p.close, tags)
    requires Safe(s, tags) && s != [] && MatchAt(p, s).Some?
    ensures 0 < k <= |s| && Safe(s[k..], tags) && Safe(head, tags)
    ensures Substitute(p, s) == head + Substitute(p, s[k..])
  {
    var n, d := MatchAt(p, s).value, |p.delim|;
    k := 2 * d + n;
    head := p.open + s[d..d + n] + p.close;
    SubstituteMatched(p, s);
    SafeSuffix(s, k, tags);
    MatchedSpanSafe(p, s, tags);
  }

  /** The rewritten span, the pass's tags around the captured text, is safe. */
  lemma MatchedSpanSafe(p: Pass, s: string, tags: seq<string>)
    requires WellFormed(p) && TagsWithout(tags, p.c)
    requires Safe(p.open, tags) && Safe(p.close, tags)
    requires Safe(s, tags) && MatchAt(p, s).Some?
    ensures var n, d := MatchAt(p, s).value, |p.delim|;
      Safe(p.open + s[d..d + n] + p.close, tags)
  {
    var n, d := MatchAt(p, s).value, |p.delim|;
    MatchAtSound(p, s);
    assert s[d + n] == p.c by {
      assert s[d + n..2 * d + n][0] == p.delim[0];
    }
    SafeBefore(s, d, n, p.c, tags);
    SafeConcat(p.open, s[d..d + n], tags);
    SafeConcat(p.open + s[d..d + n], p.close, tags);
  }

  lemma SubstituteMatched(p: Pass, s: string)
    requires s != [] && MatchAt(p, s).Some?
    ensures var n, d := MatchAt(p, s).value, |p.delim|;
      Substitute(p, s) == p.open + s[d..d + n] + p.close + Substitute(p, s[2 * d + n..])
  {
  }

  /** Any other first character, not a `<`, is copied. */
  lemma SafePlainStep(p: Pass, s: string, tags: seq<string>) returns (k: nat, head: string)
    requires Safe(s, tags) && s != [] && s[0] != '<' && MatchAt(p, s).None?
    ensures 0 < k <= |s| && Safe(s[k..], tags) && Safe(head, tags)
    ensures Substitute(p, s) == head + Substitute(p, s[k..])
  {
    k, head := 1, [s[0]];
    SafeNoLt(head, tags);
    SafeSuffix(s, 1, tags);
  }
}
