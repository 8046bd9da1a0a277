/**
 * parseMarkdown as a whole: trim, escape, split into lines, the block scan,
 * the `'\n'` join and the three inline passes.
 *
 * The main property is that the output holds no markup but the parser's
 * own tags: every `<` in it begins one of them. In particular no
 * `<script` can come out, whatever the post says.
 */
module Markdown {
  import opened Wrappers
  import opened JsString
  import opened MarkdownEscape
  import opened MarkdownBlocks
  import opened MarkdownInline

  /** Every tag the parser emits: the block tags, then the inline tags. */
  const AllTags: seq<string> := [
    UlOpen, UlClose, OlOpen, OlClose, POpen, PClose, H2Open, H2Close, H3Open, H3Close,
    LiOpen, LiClose, StrongOpen, StrongClose, EmOpen, EmClose, CodeOpen, CodeClose]

  /** The output of parseMarkdown for `content`. */
  function Render(content: string): string {
    InlinePhase(Join(BlockFragments(Split(EscapeHtml(Trim(content)), '\n')), '\n'))
  }

  /** parseMarkdown, reassigning `html` phase by phase as the source does. */
  method ParseMarkdown(content: string) returns (html: string)
    ensures html == Render(content)
    ensures Safe(html, AllTags)
    ensures !Includes(html, "<script")
  {
    html := Trim(content);
    html := EscapeHtml(html);
    var lines := Split(html, '\n');
    var processedLines := BlockPhase(lines);
    html := Join(processedLines, '\n');
    html := Substitute(Bold, html);
    html := Substitute(Italic, html);
    html := Substitute(Code, html);
    RenderSafe(content);
    SafeNoScript(html);
  }

  // ---------------------------------------------------------------------
  // The tags
  // ---------------------------------------------------------------------

  /**
   * A tag begins with its only `<`, holds no inline delimiter, and is not
   * the start of `<script`.
   */
  predicate TagShape(t: string) {
    && |t| >= 3 && t[0] == '<' && '<' !in t[1..]
    && '*' !in t && '`' !in t
    && (t[1] != 's' || t[2] != 'c')
  }

  /** A tag given as its `<` and the rest. */
  lemma ShapeOf(t: string, rest: string)
    requires t == "<" + rest && |rest| >= 2 && '<' !in rest && '*' !in rest && '`' !in rest
    requires rest[0] != 's' || rest[1] != 'c'
    ensures TagShape(t)
  {
    assert t[1..] == rest;
  }

  /** The same, with the rest given in two pieces to keep the literals short. */
  lemma ShapeOfParts(t: string, a: string, b: string)
    requires t == "<" + a + b && |a| >= 2 && '<' !in a && '*' !in a && '`' !in a
    requires '<' !in b && '*' !in b && '`' !in b
    requires a[0] != 's' || a[1] != 'c'
    ensures TagShape(t)
  {
    assert "<" + a + b == "<" + (a + b);
    assert (a + b)[0] == a[0] && (a + b)[1] == a[1];
    ShapeOf(t, a + b);
  }

  lemma ShapeUlOpen() ensures TagShape(UlOpen) { ShapeOfParts(UlOpen, "ul class=\"", "article-ul\">"); }
  lemma ShapeUlClose() ensures TagShape(UlClose) { ShapeOf(UlClose, "/ul>"); }
  lemma ShapeOlOpen() ensures TagShape(OlOpen) { ShapeOfParts(OlOpen, "ol class=\"", "article-ol\">"); }
  lemma ShapeOlClose() ensures TagShape(OlClose) { ShapeOf(OlClose, "/ol>"); }
  lemma ShapePOpen() ensures TagShape(POpen) { ShapeOfParts(POpen, "p class=\"", "article-p\">"); }
  lemma ShapePClose() ensures TagShape(PClose) { ShapeOf(PClose, "/p>"); }
  lemma ShapeH2Open() ensures TagShape(H2Open) { ShapeOfParts(H2Open, "h2 class=\"", "article-h2\">"); }
  lemma ShapeH2Close() ensures TagShape(H2Close) { ShapeOf(H2Close, "/h2>"); }
  lemma ShapeH3Open() ensures TagShape(H3Open) { ShapeOfParts(H3Open, "h3 class=\"", "article-h3\">"); }
  lemma ShapeH3Close() ensures TagShape(H3Close) { ShapeOf(H3Close, "/h3>"); }
  lemma ShapeLiOpen() ensures TagShape(LiOpen) { ShapeOfParts(LiOpen, "li class=\"", "article-li\">"); }
  lemma ShapeLiClose() ensures TagShape(LiClose) { ShapeOf(LiClose, "/li>"); }
  lemma ShapeStrongOpen() ensures TagShape(StrongOpen) { ShapeOfParts(StrongOpen, "strong class=\"", "article-strong\">"); }
  lemma ShapeStrongClose() ensures TagShape(StrongClose) { ShapeOf(StrongClose, "/strong>"); }
  lemma ShapeEmOpen() ensures TagShape(EmOpen) { ShapeOfParts(EmOpen, "em class=\"", "article-em\">"); }
  lemma ShapeEmClose() ensures TagShape(EmClose) { ShapeOf(EmClose, "/em>"); }
  lemma ShapeCodeOpen() ensures TagShape(CodeOpen) { ShapeOfParts(CodeOpen, "code class=\"", "article-code\">"); }
  lemma ShapeCodeClose() ensures TagShape(CodeClose) { ShapeOf(CodeClose, "/code>"); }

  lemma AllTagShapes()
    ensures forall t :: t in AllTags ==> TagShape(t)
  {
    ShapeUlOpen();
    ShapeUlClose();
    ShapeOlOpen();
    ShapeOlClose();
    ShapePOpen();
    ShapePClose();
    ShapeH2Open();
    ShapeH2Close();
    ShapeH3Open();
    ShapeH3Close();
    ShapeLiOpen();
    ShapeLiClose();
    ShapeStrongOpen();
    ShapeStrongClose();
    ShapeEmOpen();
    ShapeEmClose();
    ShapeCodeOpen();
    ShapeCodeClose();
  }

  /**
   * The tags are safe on their own and hold neither inline delimiter, so
   * the inline passes can neither cut nor match them.
   */
  lemma AllTagsClosed()
    ensures ClosedTags(AllTags)
    ensures TagsWithout(AllTags, '*') && TagsWithout(AllTags, '`')
    ensures forall t :: t in AllTags ==> Safe(t, AllTags)
  {
    AllTagShapes();
    forall j | 0 <= j < |AllTags|
      ensures AllTags[j] != [] && Safe(AllTags[j], AllTags) && '*' !in AllTags[j] && '`' !in AllTags[j]
    {
      assert TagShape(AllTags[j]);
      SafeTag(AllTags, j);
    }
  }

  // ---------------------------------------------------------------------
  // Safety of the block phase
  // ---------------------------------------------------------------------

  /** The text a line of kind `k` carries holds no `<`. */
  predicate KindNoLt(k: LineKind) {
    match k
    case Heading2(text) => '<' !in text
    case Heading3(text) => '<' !in text
    case ListItem(_, text) => '<' !in text
    case Blank => true
    case Text(line) => '<' !in line
  }

  /** Every fragment is safe markup. */
  ghost predicate AllSafe(frags: seq<string>) {
    forall f :: f in frags ==> Safe(f, AllTags)
  }

  /** A line without `<` carries text without `<`, whatever its kind. */
  lemma ClassifyNoLt(line: string)
    requires '<' !in line
    ensures KindNoLt(Classify(line))
  {
    if StartsWith(line, "## ") {
      assert forall m :: 0 <= m < |line[3..]| ==> line[3..][m] == line[3 + m];
    } else if StartsWith(line, "### ") {
      assert forall m :: 0 <= m < |line[4..]| ==> line[4..][m] == line[4 + m];
    } else if StartsWith(line, "- ") {
      assert forall m :: 0 <= m < |line[2..]| ==> line[2..][m] == line[2 + m];
    } else if OrderedItem(line).Some? {
      var body := OrderedItem(line).value;
      var k := |line| - |body|;
      assert forall m :: 0 <= m < |body| ==> body[m] == line[k + m];
    }
  }

  /** Wrapping text without `<` in two of the tags gives safe markup. */
  lemma WrapSafe(open: string, text: string, close: string)
    requires open in AllTags && close in AllTags && '<' !in text
    ensures Safe(open + text + close, AllTags)
  {
    AllTagsClosed();
    SafeNoLt(text, AllTags);
    SafeConcat(open, text, AllTags);
    SafeConcat(open + text, close, AllTags);
  }

  lemma StepSafe(st: BlockState, k: LineKind)
    requires KindNoLt(k)
    ensures AllSafe(Step(st, k).1)
  {
    AllTagsClosed();
    SafeNoLt(ParagraphGap, AllTags);
    match k
    case Heading2(text) => WrapSafe(H2Open, text, H2Close);
    case Heading3(text) => WrapSafe(H3Open, text, H3Close);
    case ListItem(_, text) => WrapSafe(LiOpen, text, LiClose);
    case Blank =>
    case Text(line) => SafeNoLt(line, AllTags);
  }

  lemma {:induction false} ScanSafe(st: BlockState, ks: seq<LineKind>)
    requires forall i :: 0 <= i < |ks| ==> KindNoLt(ks[i])
    ensures AllSafe(ScanFrom(st, ks).1)
    decreases |ks|
  {
    if ks != [] {
      StepSafe(st, ks[0]);
      ScanSafe(Step(st, ks[0]).0, ks[1..]);
    }
  }

  /** Lines without `<` give fragments that are all safe markup. */
  lemma FragmentsSafe(lines: seq<string>)
    requires NoLt(lines)
    ensures AllSafe(BlockFragments(lines))
  {
    var ks := Kinds(lines);
    forall i | 0 <= i < |ks| ensures KindNoLt(ks[i]) {
      ClassifyNoLt(lines[i]);
    }
    ScanSafe(Initial, ks);
    AllTagsClosed();
  }

  /** Safe fragments joined by `'\n'` are safe. */
  lemma {:induction false} JoinSafe(frags: seq<string>)
    requires AllSafe(frags)
    ensures Safe(Join(frags, '\n'), AllTags)
    decreases |frags|
  {
    if |frags| == 1 {
      assert frags[0] in frags;
    } else if |frags| > 1 {
      assert frags[0] in frags;
      assert forall f :: f in frags[1..] ==> f in frags;
      JoinSafe(frags[1..]);
      SafeNoLt("\n", AllTags);
      SafeConcat(frags[0], "\n", AllTags);
      SafeConcat(frags[0] + "\n", Join(frags[1..], '\n'), AllTags);
    }
  }

  // ---------------------------------------------------------------------
  // Safety of the output
  // ---------------------------------------------------------------------

  /**
   * Every `<` in the output begins one of the parser's own tags: the escape
   * phase removes every `<` of the post, the block phase adds only tags, and
   * each inline pass adds its tags without cutting one.
   */
  lemma RenderSafe(content: string)
    ensures Safe(Render(content), AllTags)
  {
    var lines := Split(EscapeHtml(Trim(content)), '\n');
    LinesSafe(content);
    JoinSafe(BlockFragments(lines));
    InlineSafe(Join(BlockFragments(lines), '\n'));
  }

  /** The lines of the escaped post hold no `<`, so their fragments are safe. */
  lemma LinesSafe(content: string)
    ensures AllSafe(BlockFragments(Split(EscapeHtml(Trim(content)), '\n')))
  {
    var escaped := EscapeHtml(Trim(content));
    SplitChars(escaped, '\n', '<');
    FragmentsSafe(Split(escaped, '\n'));
  }

  /** The inline tags are among the tags. */
  lemma InlineTagsSafe()
    ensures Safe(StrongOpen, AllTags) && Safe(StrongClose, AllTags)
    ensures Safe(EmOpen, AllTags) && Safe(EmClose, AllTags)
    ensures Safe(CodeOpen, AllTags) && Safe(CodeClose, AllTags)
  {
    AllTagsClosed();
    assert AllTags[12] == StrongOpen && AllTags[13] == StrongClose;
    assert AllTags[14] == EmOpen && AllTags[15] == EmClose;
    assert AllTags[16] == CodeOpen && AllTags[17] == CodeClose;
  }

  /** The three inline passes keep markup safe. */
  lemma InlineSafe(s: string)
    requires Safe(s, AllTags)
    ensures Safe(InlinePhase(s), AllTags)
  {
    AllTagsClosed();
    InlineTagsSafe();
    SubstituteSafe(Bold, s, AllTags);
    SubstituteSafe(Italic, Substitute(Bold, s), AllTags);
    SubstituteSafe(Code, Substitute(Italic, Substitute(Bold, s)), AllTags);
  }

  /** Safe text has no `<script` at position `i`. */
  lemma NoScriptAt(s: string, i: nat)
    requires Safe(s, AllTags) && i + 7 <= |s|
    ensures s[i..i + 7] != "<script"
  {
    if s[i] == '<' {
      assert BeginsTag(s[i..], AllTags);
      var j :| 0 <= j < |AllTags| && StartsWith(s[i..], AllTags[j]);
      var t := AllTags[j];
      AllTagShapes();
      assert TagShape(t);
      assert s[i + 1] == t[1] && s[i + 2] == t[2];
      assert s[i..i + 7][1] == s[i + 1] && s[i..i + 7][2] == s[i + 2];
    } else {
      assert s[i..i + 7][0] == s[i];
    }
  }

  /** Safe text never contains `<script`. */
  lemma SafeNoScript(s: string)
    requires Safe(s, AllTags)
    ensures !Includes(s, "<script")
  {
    forall i | 0 <= i <= |s| - 7 ensures !OccursAt(s, "<script", i) {
      NoScriptAt(s, i);
    }
    IncludesIff(s, "<script");
  }

  /** No post, whatever it contains, makes parseMarkdown emit `<script`. */
  lemma RenderNoScript(content: string)
    ensures !Includes(Render(content), "<script")
  {
    RenderSafe(content);
    SafeNoScript(Render(content));
  }

  /**
   * A tag written in a post reaches the page escaped: wherever `<w>` occurs
   * in the content, `&lt;w&gt;` occurs in the output, for a tag name `w`
   * holding no character any phase acts on.
   */
  lemma RenderKeepsTag(content: string, w: string)
    requires Includes(content, "<" + w + ">")
    requires '&' !in w && '<' !in w && '>' !in w && '\n' !in w && '*' !in w && '`' !in w
    ensures Includes(Render(content), "&lt;" + w + "&gt;")
  {
    var e := "&lt;" + w + "&gt;";
    var u, v := EscapedInfix(content, w);
    EntityOfTag(w);
    var x, y := BlocksKeepInfix(EscapeHtml(Trim(content)), u, e, v);
    InlineKeepsInfix(Join(BlockFragments(Split(EscapeHtml(Trim(content)), '\n')), '\n'), x, e, y);
  }

  /** `<script>` in a post comes out as the text `&lt;script&gt;`. */
  lemma RenderEscapesScript(content: string)
    requires Includes(content, "<script>")
    ensures Includes(Render(content), "&lt;script&gt;")
  {
    assert "<" + "script" + ">" == "<script>";
    assert "&lt;" + "script" + "&gt;" == "&lt;script&gt;";
    RenderKeepsTag(content, "script");
  }

  /** Trimming keeps the tag, and escaping turns it into its entity form. */
  lemma EscapedInfix(content: string, w: string) returns (u: string, v: string)
    requires Includes(content, "<" + w + ">")
    requires '&' !in w && '<' !in w && '>' !in w
    ensures EscapeHtml(Trim(content)) == u + ("&lt;" + w + "&gt;") + v
  {
    var t := "<" + w + ">";
    var a, b := IncludesParts(content, t);
    assert t[0] == '<' && t[|t| - 1] == '>';
    var a1, b1 := TrimKeepsInfix(a, t, b);
    EscapeTag(a1, w, b1);
    u, v := EscapeHtml(a1), EscapeHtml(b1);
  }

  /** `&lt;w&gt;` begins with `&` and holds no newline, `*` or backtick when `w` holds none. */
  lemma EntityOfTag(w: string)
    requires '\n' !in w && '*' !in w && '`' !in w
    ensures var e := "&lt;" + w + "&gt;"; e[0] == '&' && '\n' !in e && '*' !in e && '`' !in e
  {
    EscapedTagFree(w, '\n');
    EscapedTagFree(w, '*');
    EscapedTagFree(w, '`');
  }

  /** A character that is neither in `w` nor in the two entities is not in `&lt;w&gt;`. */
  lemma EscapedTagFree(w: string, x: char)
    requires x !in w && x !in "&lt;" && x !in "&gt;"
    ensures x !in "&lt;" + w + "&gt;"
  {
  }

  /** Text holding the entity `e` keeps it whole through the line split, the block scan and the join. */
  lemma BlocksKeepInfix(text: string, u: string, e: string, v: string) returns (x: string, y: string)
    requires text == u + e + v && e != [] && e[0] == '&' && '\n' !in e
    ensures Join(BlockFragments(Split(text, '\n')), '\n') == x + e + y
  {
    var i, p, q := SplitKeepsInfix(u, e, v, '\n');
    var lines := Split(text, '\n');
    var m, p2, q2 := FragmentsKeepInfix(lines, i, p, e, q);
    var frags := BlockFragments(lines);
    var a, b := JoinKeepsPart(frags, m, '\n');
    x, y := a + p2, q2 + b;
    assert Join(frags, '\n') == a + (p2 + e + q2) + b;
  }

  /** The three inline passes keep text without `*` or a backtick whole. */
  lemma InlineKeepsInfix(html: string, x: string, e: string, y: string)
    requires html == x + e + y && e != [] && '*' !in e && '`' !in e
    ensures Includes(InlinePhase(html), e)
  {
    var x1, y1 := SubstituteKeepsInfix(Bold, x, e, y);
    var x2, y2 := SubstituteKeepsInfix(Italic, x1, e, y1);
    var x3, y3 := SubstituteKeepsInfix(Code, x2, e, y2);
    InfixIncludes(x3, e, y3);
  }

  // ---------------------------------------------------------------------
  // Whole documents
  // ---------------------------------------------------------------------

  /** Text without `*` or a backtick goes through the inline passes unchanged. */
  lemma InlineIdentity(s: string)
    requires '*' !in s && '`' !in s
    ensures InlinePhase(s) == s
  {
    SubstituteIdentity(Bold, s);
    SubstituteIdentity(Italic, s);
    SubstituteIdentity(Code, s);
  }

  /** Input that needs neither trimming nor escaping goes straight to the line split. */
  lemma RenderPlain(content: string)
    requires content != [] && !IsWhitespace(content[0]) && !IsWhitespace(content[|content| - 1])
    requires '&' !in content && '<' !in content && '>' !in content
    ensures Render(content) == InlinePhase(Join(BlockFragments(Split(content, '\n')), '\n'))
  {
    TrimKeeps(content);
  }

  /** A document that is one `## ` line renders as one `<h2>`. */
  lemma RenderHeading(title: string)
    requires title != [] && !IsWhitespace(title[|title| - 1])
    requires '&' !in title && '<' !in title && '>' !in title && '*' !in title && '`' !in title
    requires '\n' !in title
    ensures Render("## " + title) == H2Open + title + H2Close
  {
    var line := "## " + title;
    assert line[|line| - 1] == title[|title| - 1];
    RenderPlain(line);
    SplitFree(line, '\n');
    var h := HeadingBlock(title);
    assert Join([h], '\n') == h;
    InlineIdentity(h);
  }

  /** The one fragment the block phase makes of a heading line, free of inline delimiters. */
  lemma HeadingBlock(title: string) returns (h: string)
    requires '*' !in title && '`' !in title && '\n' !in title
    ensures h == H2Open + title + H2Close
    ensures BlockFragments(["## " + title]) == [h] && '*' !in h && '`' !in h
  {
    var line := "## " + title;
    h := H2Open + title + H2Close;
    Heading2Line(Initial, line);
    assert line[3..] == title;
    assert CloseOut(Initial) == [];
    SingleLine(line);
    ShapeH2Open();
    ShapeH2Close();
    NoneOfThree(H2Open, title, H2Close, '*');
    NoneOfThree(H2Open, title, H2Close, '`');
  }

  lemma NoneOfThree(a: string, b: string, c: string, x: char)
    requires x !in a && x !in b && x !in c
    ensures x !in a + b + c
  {
  }

  /** `line` holds nothing that any phase would change. */
  predicate PlainText(line: string) {
    && '&' !in line && '<' !in line && '>' !in line
    && '*' !in line && '`' !in line && '\n' !in line
  }

  /** `x` differs from `y` only by a known two-character prefix. */
  lemma DropPrefix(x: string, y: string)
    requires |x| == 2 && StartsWith(x + y, x)
    ensures (x + y)[2..] == y
  {
  }

  lemma JoinFour(w: string, x: string, y: string, z: string)
    ensures Join([w, x, y, z], '\n') == w + "\n" + x + "\n" + y + "\n" + z
  {
    JoinCons(y, [z]);
    JoinCons(x, [y, z]);
    JoinCons(w, [x, y, z]);
  }

  lemma JoinSix(u: string, v: string, w: string, x: string, y: string, z: string)
    ensures Join([u, v, w, x, y, z], '\n') == u + "\n" + v + "\n" + w + "\n" + x + "\n" + y + "\n" + z
  {
    JoinFour(w, x, y, z);
    JoinCons(v, [w, x, y, z]);
    JoinCons(u, [v, w, x, y, z]);
  }

  lemma BulletPairLines(a: string, b: string)
    requires '\n' !in a && '\n' !in b
    ensures Split("- " + a + "\n- " + b, '\n') == ["- " + a, "- " + b]
  {
    var p, t := "- " + a, "- " + b;
    assert "- " + a + "\n- " + b == p + ['\n'] + t;
    SplitAfterPiece(p, '\n', t);
    SplitFree(t, '\n');
  }

  lemma BulletPairFragments(a: string, b: string)
    ensures BlockFragments(["- " + a, "- " + b]) == [UlOpen, Li(a), Li(b), UlClose]
  {
    var p, t := "- " + a, "- " + b;
    BulletList([p, t]);
    var bodies := BulletBodies([p, t]);
    assert bodies[0] == a by {
      DropPrefix("- ", bodies[0]);
      DropPrefix("- ", a);
    }
    assert bodies[1] == b by {
      DropPrefix("- ", bodies[1]);
      DropPrefix("- ", b);
    }
    assert bodies == [a, b];
  }

  lemma BulletPairHtml(a: string, b: string)
    requires '*' !in a && '`' !in a && '*' !in b && '`' !in b
    ensures InlinePhase(Join([UlOpen, Li(a), Li(b), UlClose], '\n'))
      == UlOpen + "\n" + Li(a) + "\n" + Li(b) + "\n" + UlClose
  {
    JoinFour(UlOpen, Li(a), Li(b), UlClose);
    ShapeUlOpen();
    ShapeUlClose();
    ShapeLiOpen();
    ShapeLiClose();
    InlineIdentity(UlOpen + "\n" + Li(a) + "\n" + Li(b) + "\n" + UlClose);
  }

  /** Two consecutive `- ` lines make one `<ul>` with two items, in order. */
  lemma RenderBulletPair(a: string, b: string)
    requires PlainText(a) && PlainText(b) && b != [] && !IsWhitespace(b[|b| - 1])
    ensures Render("- " + a + "\n- " + b) == UlOpen + "\n" + Li(a) + "\n" + Li(b) + "\n" + UlClose
  {
    var content := "- " + a + "\n- " + b;
    assert content[|content| - 1] == b[|b| - 1];
    RenderPlain(content);
    BulletPairLines(a, b);
    BulletPairFragments(a, b);
    BulletPairHtml(a, b);
  }

  /** The empty line: a blank line and nothing else. */
  lemma EmptyLineBlank()
    ensures Classify("") == Blank
  {
    var e: string := "";
    assert OrderedItem(e).None? by {
      if OrderedItem(e).Some? {
        OrderedStartsWithDigit(e);
      }
    }
    assert IsBlank(e);
  }

  lemma TwoParagraphLines(a: string, b: string)
    requires '\n' !in a && '\n' !in b
    ensures Split(a + "\n\n" + b, '\n') == [a, "", b]
  {
    var e: string := "";
    assert a + "\n\n" + b == a + ['\n'] + (e + ['\n'] + b);
    SplitAfterPiece(a, '\n', e + ['\n'] + b);
    SplitAfterPiece(e, '\n', b);
    SplitFree(b, '\n');
  }

  lemma TwoParagraphFragments(a: string, b: string)
    requires Classify(a).Text? && Classify(b).Text?
    ensures BlockFragments([a, "", b]) == [POpen, a, PClose, POpen, b, PClose]
  {
    var e: string := "";
    EmptyLineBlank();
    ClassifyText(a);
    ClassifyText(b);
    var ka, kb := Text(a), Text(b);
    var ks := [ka, Blank, kb];
    assert Kinds([a, e, b]) == ks;
    var inPara := BlockState(false, None, true);
    PlainLine(Initial, a);
    BlankLine(inPara, e);
    PlainLine(Initial, b);
    assert ks[1..] == [Blank, kb] && ks[1..][1..] == [kb] && [kb][1..] == [];
    ScanCons(Initial, ks);
    ScanCons(inPara, ks[1..]);
    ScanCons(Initial, [kb]);
    assert CloseOut(inPara) == [PClose];
  }

  lemma TwoParagraphHtml(a: string, b: string)
    requires '*' !in a && '`' !in a && '*' !in b && '`' !in b
    ensures InlinePhase(Join([POpen, a, PClose, POpen, b, PClose], '\n'))
      == POpen + "\n" + a + "\n" + PClose + "\n" + POpen + "\n" + b + "\n" + PClose
  {
    JoinSix(POpen, a, PClose, POpen, b, PClose);
    ShapePOpen();
    ShapePClose();
    InlineIdentity(POpen + "\n" + a + "\n" + PClose + "\n" + POpen + "\n" + b + "\n" + PClose);
  }

  /** A blank line between two text lines makes two paragraphs. */
  lemma RenderTwoParagraphs(a: string, b: string)
    requires PlainText(a) && PlainText(b) && Classify(a).Text? && Classify(b).Text?
    requires a != [] && !IsWhitespace(a[0]) && b != [] && !IsWhitespace(b[|b| - 1])
    ensures Render(a + "\n\n" + b) ==
      POpen + "\n" + a + "\n" + PClose + "\n" + POpen + "\n" + b + "\n" + PClose
  {
    var content := a + "\n\n" + b;
    assert content[0] == a[0] && content[|content| - 1] == b[|b| - 1];
    RenderPlain(content);
    TwoParagraphLines(a, b);
    TwoParagraphFragments(a, b);
    TwoParagraphHtml(a, b);
  }

  lemma BoldLineIsText(x: string)
    ensures Classify("**" + x + "**") == Text("**" + x + "**")
  {
    var line := "**" + x + "**";
    assert line[0] == '*';
    assert OrderedItem(line).None? by {
      if OrderedItem(line).Some? {
        OrderedStartsWithDigit(line);
      }
    }
    assert !IsBlank(line);
  }

  lemma OneParagraphFragments(line: string)
    requires Classify(line).Text?
    ensures BlockFragments([line]) == [POpen, line, PClose]
  {
    Paragraph([line]);
    assert [line][1..] == [];
  }

  lemma JoinThree(x: string, y: string, z: string)
    ensures Join([x, y, z], '\n') == x + "\n" + y + "\n" + z
  {
    JoinCons(y, [z]);
    JoinCons(x, [y, z]);
  }

  lemma SubstituteSpan(p: Pass, x: string, tail: string)
    requires WellFormed(p) && p.c !in tail && x != [] && p.c !in x
    ensures Substitute(p, p.delim + x + p.delim + tail) == p.open + x + p.close + tail
  {
    SubstituteDelimited(p, x, tail);
    SubstituteIdentity(p, tail);
  }

  /** One delimited span between two stretches free of the delimiter character. */
  lemma SubstituteBetween(p: Pass, head: string, x: string, tail: string)
    requires WellFormed(p) && p.c !in head && p.c !in tail && x != [] && p.c !in x
    ensures Substitute(p, head + (p.delim + x + p.delim + tail)) == head + (p.open + x + p.close + tail)
  {
    SubstituteSkips(p, head, p.delim + x + p.delim + tail);
    SubstituteSpan(p, x, tail);
  }

  lemma BoldLineParts(o: string, x: string, c: string)
    ensures o + "\n" + ("**" + x + "**") + "\n" + c == (o + "\n") + (Bold.delim + x + Bold.delim + ("\n" + c))
  {
  }

  lemma StrongLineParts(o: string, x: string, c: string)
    ensures (o + "\n") + (StrongOpen + x + StrongClose + ("\n" + c)) == o + "\n" + StrongOpen + x + StrongClose + "\n" + c
  {
  }

  /** A bold span on a line of its own between two lines free of delimiters. */
  lemma BoldBetweenLines(o: string, x: string, c: string)
    requires '*' !in o && '`' !in o && '*' !in c && '`' !in c
    requires x != [] && '*' !in x && '`' !in x
    ensures InlinePhase(o + "\n" + ("**" + x + "**") + "\n" + c) == o + "\n" + StrongOpen + x + StrongClose + "\n" + c
  {
    var head, tail := o + "\n", "\n" + c;
    BoldLineParts(o, x, c);
    SubstituteBetween(Bold, head, x, tail);
    var html := head + (StrongOpen + x + StrongClose + tail);
    TagsFree();
    TagsFreeOfBacktick();
    InlineIdentityAfterBold(html);
    StrongLineParts(o, x, c);
  }

  lemma BoldParagraphHtml(x: string)
    requires x != [] && '*' !in x && '`' !in x
    ensures InlinePhase(Join([POpen, "**" + x + "**", PClose], '\n'))
      == POpen + "\n" + StrongOpen + x + StrongClose + "\n" + PClose
  {
    JoinThree(POpen, "**" + x + "**", PClose);
    ShapePOpen();
    ShapePClose();
    BoldBetweenLines(POpen, x, PClose);
  }

  lemma InlineIdentityAfterBold(s: string)
    requires '*' !in s && '`' !in s
    ensures Substitute(Code, Substitute(Italic, s)) == s
  {
    SubstituteIdentity(Italic, s);
    SubstituteIdentity(Code, s);
  }

  /** A line that is one bold span becomes a paragraph holding a strong element. */
  lemma RenderBoldParagraph(x: string)
    requires x != [] && PlainText(x)
    ensures Render("**" + x + "**") == POpen + "\n" + StrongOpen + x + StrongClose + "\n" + PClose
  {
    var line := "**" + x + "**";
    assert line[0] == '*' && line[|line| - 1] == '*';
    RenderPlain(line);
    SplitFree(line, '\n');
    BoldLineIsText(x);
    OneParagraphFragments(line);
    BoldParagraphHtml(x);
  }
}
