/**
 * The escape phase of parseMarkdown: the trimmed input has `&`, `<` and `>`
 * replaced by their HTML entities, `&` first, so that no markup written in a
 * post can reach the page.
 */
module MarkdownEscape {
  import opened JsString

  /** The three chained global replacements, in the order the parser applies them. */
  function EscapeHtml(s: string): (r: string)
    ensures '<' !in r && '>' !in r
    ensures '&' !in s && '<' !in s && '>' !in s ==> r == s
  {
    ReplaceAll(ReplaceAll(ReplaceAll(s, '&', "&amp;"), '<', "&lt;"), '>', "&gt;")
  }

  /** The entity (or the character itself) that one input character stands for. */
  function EscapeChar(c: char): string {
    if c == '&' then "&amp;" else if c == '<' then "&lt;" else if c == '>' then "&gt;" else [c]
  }

  /** Reference escaping: every character replaced independently of its neighbours. */
  function EscapeEach(s: string): string
    decreases |s|
  {
    if s == [] then [] else EscapeChar(s[0]) + EscapeEach(s[1..])
  }

  lemma {:induction false} ReplaceAllConcat(a: string, b: string, c: char, rep: string)
    ensures ReplaceAll(a + b, c, rep) == ReplaceAll(a, c, rep) + ReplaceAll(b, c, rep)
    decreases |a|
  {
    if a == [] {
      assert a + b == b;
    } else {
      assert (a + b)[1..] == a[1..] + b;
      ReplaceAllConcat(a[1..], b, c, rep);
    }
  }

  /**
   * Because `&` is replaced first, the `&` that the later replacements
   * introduce is never escaped again: the chain escapes each character on its own.
   */
  lemma {:induction false} EscapeHtmlIsPerCharacter(s: string)
    ensures EscapeHtml(s) == EscapeEach(s)
    decreases |s|
  {
    if s != [] {
      assert s == [s[0]] + s[1..];
      EscapeHtmlConcat([s[0]], s[1..]);
      EscapeHtmlChar(s[0]);
      EscapeHtmlIsPerCharacter(s[1..]);
    }
  }

  lemma EscapeHtmlChar(c: char)
    ensures EscapeHtml([c]) == EscapeChar(c)
  {
    var a := ReplaceAll([c], '&', "&amp;");
    assert a == if c == '&' then "&amp;" else [c] by {
      assert [c][1..] == [];
    }
    var b := ReplaceAll(a, '<', "&lt;");
    assert b == if c == '<' then "&lt;" else a;
    assert ReplaceAll(b, '>', "&gt;") == if c == '>' then "&gt;" else b;
  }

  lemma EscapeHtmlConcat(a: string, b: string)
    ensures EscapeHtml(a + b) == EscapeHtml(a) + EscapeHtml(b)
  {
    ReplaceAllConcat(a, b, '&', "&amp;");
    var a1, b1 := ReplaceAll(a, '&', "&amp;"), ReplaceAll(b, '&', "&amp;");
    ReplaceAllConcat(a1, b1, '<', "&lt;");
    ReplaceAllConcat(ReplaceAll(a1, '<', "&lt;"), ReplaceAll(b1, '<', "&lt;"), '>', "&gt;");
  }

  /** Decoding of the three entities the escape phase produces. */
  function Unescape(s: string): string
    decreases |s|
  {
    if s == [] then []
    else if StartsWith(s, "&amp;") then "&" + Unescape(s[5..])
    else if StartsWith(s, "&lt;") then "<" + Unescape(s[4..])
    else if StartsWith(s, "&gt;") then ">" + Unescape(s[4..])
    else [s[0]] + Unescape(s[1..])
  }

  lemma UnescapeOne(c: char, rest: string)
    ensures Unescape(EscapeChar(c) + rest) == [c] + Unescape(rest)
  {
    var e := EscapeChar(c) + rest;
    if c == '&' {
      assert e == "&amp;" + rest;
      assert e[..5] == "&amp;" && e[5..] == rest;
    } else if c == '<' {
      assert e == "&lt;" + rest;
      assert e[..4] == "&lt;" && e[4..] == rest;
      assert !StartsWith(e, "&amp;") by { assert e[1] == 'l'; }
    } else if c == '>' {
      assert e == "&gt;" + rest;
      assert e[..4] == "&gt;" && e[4..] == rest;
      assert !StartsWith(e, "&amp;") && !StartsWith(e, "&lt;") by { assert e[1] == 'g'; }
    } else {
      assert e == [c] + rest;
      assert e[0] == c && e[1..] == rest;
      assert !StartsWith(e, "&amp;") && !StartsWith(e, "&lt;") && !StartsWith(e, "&gt;") by { assert e[0] != '&'; }
    }
  }

  /** Escaping loses nothing: the entities decode back to the original text. */
  lemma {:induction false} UnescapeEscapeHtml(s: string)
    ensures Unescape(EscapeHtml(s)) == s
  {
    EscapeHtmlIsPerCharacter(s);
    UnescapeEach(s);
  }

  lemma {:induction false} UnescapeEach(s: string)
    ensures Unescape(EscapeEach(s)) == s
    decreases |s|
  {
    if s != [] {
      UnescapeOne(s[0], EscapeEach(s[1..]));
      UnescapeEach(s[1..]);
    }
  }

  lemma EscapeAround(a: string, t: string, b: string)
    ensures EscapeHtml(a + t + b) == EscapeHtml(a) + EscapeHtml(t) + EscapeHtml(b)
  {
    EscapeHtmlConcat(a + t, b);
    EscapeHtmlConcat(a, t);
  }

  /** A word between angle brackets keeps the word and gets the two entities. */
  lemma EscapeBracketed(w: string)
    requires '&' !in w && '<' !in w && '>' !in w
    ensures EscapeHtml("<" + w + ">") == "&lt;" + w + "&gt;"
  {
    EscapeAround("<", w, ">");
    EscapeHtmlChar('<');
    EscapeHtmlChar('>');
    assert ['<'] == "<" && ['>'] == ">";
  }

  /**
   * A tag written in a post, such as `<script>`, reaches the page as text:
   * `&lt;script&gt;`, with everything around it escaped as before.
   */
  lemma EscapeTag(a: string, w: string, b: string)
    requires '&' !in w && '<' !in w && '>' !in w
    ensures EscapeHtml(a + ("<" + w + ">") + b) == EscapeHtml(a) + ("&lt;" + w + "&gt;") + EscapeHtml(b)
  {
    EscapeBracketed(w);
    EscapeAround(a, "<" + w + ">", b);
  }

  /** An entity already in the text is escaped again: `&lt;` becomes `&amp;lt;`. */
  lemma EscapeEntityAgain(w: string)
    requires '&' !in w && '<' !in w && '>' !in w
    ensures EscapeHtml("&" + w) == "&amp;" + w
  {
    EscapeHtmlConcat("&", w);
    EscapeHtmlChar('&');
    assert ['&'] == "&";
  }
}
