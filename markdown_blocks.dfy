/**
 * The block phase of parseMarkdown: the escaped text is cut into lines and
 * scanned once, top to bottom, by a small state machine over three flags
 * (`inList`, `listType`, `inParagraph`) that pushes HTML fragments onto a
 * list; what is still open at the end is closed.
 *
 * `Step` and `ScanFrom` are the reference definition of that scan;
 * `BlockPhase` is the loop itself, proved to compute `BlockFragments` and to
 * produce balanced markup.
 */
module MarkdownBlocks {
  import opened Wrappers
  import opened JsString

  // ---------------------------------------------------------------------
  // The markup the block phase emits
  // ---------------------------------------------------------------------

  const UlOpen := "<ul class=\"article-ul\">"
  const UlClose := "</ul>"
  const OlOpen := "<ol class=\"article-ol\">"
  const OlClose := "</ol>"
  const POpen := "<p class=\"article-p\">"
  const PClose := "</p>"
  /** The fragment pushed between two lines of one paragraph. */
  const ParagraphGap := " "
  const H2Open := "<h2 class=\"article-h2\">"
  const H2Close := "</h2>"
  const H3Open := "<h3 class=\"article-h3\">"
  const H3Close := "</h3>"
  const LiOpen := "<li class=\"article-li\">"
  const LiClose := "</li>"

  function H2(text: string): string { H2Open + text + H2Close }
  function H3(text: string): string { H3Open + text + H3Close }
  function Li(text: string): string { LiOpen + text + LiClose }

  datatype ListType = Ul | Ol

  function ListOpen(t: ListType): string { if t == Ul then UlOpen else OlOpen }
  function ListClose(t: ListType): string { if t == Ul then UlClose else OlClose }

  // ---------------------------------------------------------------------
  // Ordered list lines: /^(\d+)\.\s+(.+)$/
  // ---------------------------------------------------------------------

  /** `\d` */
  predicate IsDigit(c: char) { '0' <= c <= '9' }

  /** The number of leading digits. */
  function DigitRun(s: string): (n: nat)
    ensures n <= |s|
    ensures forall i :: 0 <= i < n ==> IsDigit(s[i])
    ensures n == |s| || !IsDigit(s[n])
    decreases |s|
  {
    if s != [] && IsDigit(s[0]) then 1 + DigitRun(s[1..]) else 0
  }

  /** No character that `.` refuses to match. */
  predicate NoLineTerminator(s: string) {
    forall i :: 0 <= i < |s| ==> !IsLineTerminator(s[i])
  }

  /**
   * Capture group 2 of the ordered-item pattern, or nothing when the line does
   * not match. `\d+` cannot give anything back (a digit is not a `.`); the
   * greedy `\s+` gives back whitespace only when nothing else is left for `.+`.
   */
  function OrderedItem(line: string): (r: Option<string>)
    ensures r.Some? ==> 0 < |r.value| <= |line| && r.value == line[|line| - |r.value|..]
  {
    var d := DigitRun(line);
    if d == 0 || d == |line| || line[d] != '.' then None
    else
      var rest := line[d + 1..];
      var w := WhitespaceRun(rest);
      if w == 0 then None
      else if w < |rest| then
        if NoLineTerminator(rest[w..]) then Some(rest[w..]) else None
      else if w >= 2 && !IsLineTerminator(rest[w - 1]) then Some(rest[w - 1..])
      else None
  }

  /** `line` is digits, a period, whitespace and a body that `.+` matches. */
  ghost predicate OrderedShape(line: string, digits: string, space: string, body: string) {
    && line == digits + "." + space + body
    && |digits| >= 1 && (forall i :: 0 <= i < |digits| ==> IsDigit(digits[i]))
    && |space| >= 1 && IsBlank(space)
    && |body| >= 1 && NoLineTerminator(body)
  }

  // ---------------------------------------------------------------------
  // The scan
  // ---------------------------------------------------------------------

  /** The flags parseMarkdown keeps while it scans the lines. */
  datatype BlockState = BlockState(inList: bool, listType: Option<ListType>, inParagraph: bool)

  const Initial := BlockState(false, None, false)

  /** `inList` exactly when `listType` is set, and never a list and a paragraph at once. */
  predicate Consistent(st: BlockState) {
    (st.inList <==> st.listType.Some?) && !(st.inList && st.inParagraph)
  }

  /** The branch of the scan a line takes, in the order the parser tries them. */
  datatype LineKind =
    | Heading2(text: string)
    | Heading3(text: string)
    | ListItem(listType: ListType, text: string)
    | Blank
    | Text(line: string)

  function Classify(line: string): LineKind {
    if StartsWith(line, "## ") then Heading2(line[3..])
    else if StartsWith(line, "### ") then Heading3(line[4..])
    else if StartsWith(line, "- ") then ListItem(Ul, line[2..])
    else match OrderedItem(line)
      case Some(body) => ListItem(Ol, body)
      case None => if IsBlank(line) then Blank else Text(line)
  }

  /** The kind of every line, in order. */
  function Kinds(lines: seq<string>): (r: seq<LineKind>)
    ensures |r| == |lines| && forall i :: 0 <= i < |lines| ==> r[i] == Classify(lines[i])
  {
    seq(|lines|, i requires 0 <= i < |lines| => Classify(lines[i]))
  }

  /** Closing the open list, if any. */
  function CloseList(st: BlockState): (BlockState, seq<string>) {
    if st.inList then
      (st.(inList := false, listType := None), [if st.listType == Some(Ul) then UlClose else OlClose])
    else (st, [])
  }

  /** Closing the open paragraph, if any. */
  function CloseParagraph(st: BlockState): (BlockState, seq<string>) {
    if st.inParagraph then (st.(inParagraph := false), [PClose]) else (st, [])
  }

  /** Making sure a list of type `t` is open, closing the list of the other type. */
  function EnsureList(st: BlockState, t: ListType): (BlockState, seq<string>) {
    if !st.inList || st.listType != Some(t) then
      (st.(inList := true, listType := Some(t)),
       (if st.inList then [ListClose(if t == Ul then Ol else Ul)] else []) + [ListOpen(t)])
    else (st, [])
  }

  /** What one line, of kind `k`, does to the flags, and the fragments it pushes. */
  function Step(st: BlockState, k: LineKind): (BlockState, seq<string>) {
    match k
    case Heading2(text) =>
      var list := CloseList(st);
      var para := CloseParagraph(list.0);
      (para.0, list.1 + para.1 + [H2(text)])
    case Heading3(text) =>
      var list := CloseList(st);
      var para := CloseParagraph(list.0);
      (para.0, list.1 + para.1 + [H3(text)])
    case ListItem(t, text) =>
      var para := CloseParagraph(st);
      var list := EnsureList(para.0, t);
      (list.0, para.1 + list.1 + [Li(text)])
    case Blank =>
      var list := CloseList(st);
      var para := CloseParagraph(list.0);
      (para.0, list.1 + para.1)
    case Text(line) =>
      var list := CloseList(st);
      if list.0.inParagraph then (list.0, list.1 + [ParagraphGap, line])
      else (list.0.(inParagraph := true), list.1 + [POpen, line])
  }

  /** The scan of lines of kinds `ks` from state `st`: the final flags and the fragments pushed. */
  function ScanFrom(st: BlockState, ks: seq<LineKind>): (BlockState, seq<string>)
    decreases |ks|
  {
    if ks == [] then (st, [])
    else
      var first := Step(st, ks[0]);
      var rest := ScanFrom(first.0, ks[1..]);
      (rest.0, first.1 + rest.1)
  }

  /** The close-out after the last line. */
  function CloseOut(st: BlockState): seq<string> {
    (if st.inList then [if st.listType == Some(Ul) then UlClose else OlClose] else [])
    + (if st.inParagraph then [PClose] else [])
  }

  /** The fragment list the block phase produces for `lines`. */
  function BlockFragments(lines: seq<string>): seq<string> {
    var (st, out) := ScanFrom(Initial, Kinds(lines));
    out + CloseOut(st)
  }

  /** A one-line document: that line's step, then the close-out. */
  lemma SingleLine(line: string)
    ensures var (st, out) := Step(Initial, Classify(line));
      BlockFragments([line]) == out + CloseOut(st)
  {
    var k := Classify(line);
    assert Kinds([line]) == [k];
    ScanCons(Initial, [k]);
    assert [k][1..] == [];
  }

  // ---------------------------------------------------------------------
  // Balanced markup
  // ---------------------------------------------------------------------

  /** What a reader of the fragments has open: nothing, a list, or a paragraph. */
  datatype Open = Top | InList(listType: ListType) | InParagraph

  function OpenOf(st: BlockState): Open {
    if st.inList then InList(if st.listType == Some(Ul) then Ul else Ol)
    else if st.inParagraph then InParagraph
    else Top
  }

  /**
   * One fragment read by its tag name: a container opens only at top level and
   * closes only the container of its own name; a list item only inside a list;
   * a heading only at top level; text (no `<` at all) only inside a paragraph.
   */
  function NextOpen(o: Open, f: string): Option<Open> {
    if |f| >= 3 && f[0] == '<' && f[1] == '/' then
      if f[2] == 'u' && o == InList(Ul) then Some(Top)
      else if f[2] == 'o' && o == InList(Ol) then Some(Top)
      else if f[2] == 'p' && o == InParagraph then Some(Top)
      else None
    else if |f| >= 2 && f[0] == '<' then
      if f[1] == 'u' && o == Top then Some(InList(Ul))
      else if f[1] == 'o' && o == Top then Some(InList(Ol))
      else if f[1] == 'p' && o == Top then Some(InParagraph)
      else if f[1] == 'l' && o.InList? then Some(o)
      else if f[1] == 'h' && o == Top then Some(Top)
      else None
    else if '<' !in f && o == InParagraph then Some(o)
    else None
  }

  function WalkFrom(o: Open, frags: seq<string>): Option<Open>
    decreases |frags|
  {
    if frags == [] then Some(o)
    else match NextOpen(o, frags[0])
      case None => None
      case Some(o') => WalkFrom(o', frags[1..])
  }

  /** Every container opened is closed by its own closing tag, one at a time. */
  predicate Balanced(frags: seq<string>) {
    WalkFrom(Top, frags) == Some(Top)
  }

  /** No line holds a `<` (true of every line once the text is escaped). */
  predicate NoLt(lines: seq<string>) {
    forall i :: 0 <= i < |lines| ==> '<' !in lines[i]
  }

  // ---------------------------------------------------------------------
  // The loop
  // ---------------------------------------------------------------------

  /**
   * The body of the line loop of parseMarkdown: the branch a line takes, with
   * the flags before and after it and the fragments it pushes. Each branch
   * ends where the source says `continue`.
   */
  method ProcessLine(inList0: bool, listType0: Option<ListType>, inParagraph0: bool, line: string)
    returns (inList: bool, listType: Option<ListType>, inParagraph: bool, pushed: seq<string>)
    ensures BlockState(inList, listType, inParagraph) == Step(BlockState(inList0, listType0, inParagraph0), Classify(line)).0
    ensures pushed == Step(BlockState(inList0, listType0, inParagraph0), Classify(line)).1
  {
    if StartsWith(line, "## ") {
      inList, listType, inParagraph, pushed := CloseBlocks(inList0, listType0, inParagraph0);
      var headerText := line[3..];
      pushed := pushed + [H2(headerText)];
      assert Classify(line) == Heading2(headerText);
      return;
    }

    if StartsWith(line, "### ") {
      inList, listType, inParagraph, pushed := CloseBlocks(inList0, listType0, inParagraph0);
      var headerText := line[4..];
      pushed := pushed + [H3(headerText)];
      assert Classify(line) == Heading3(headerText);
      return;
    }

    if StartsWith(line, "- ") {
      inList, listType, inParagraph, pushed := OpenList(inList0, listType0, inParagraph0, Ul);
      var listText := line[2..];
      pushed := pushed + [Li(listText)];
      assert Classify(line) == ListItem(Ul, listText);
      return;
    }

    var orderedMatch := OrderedItem(line);
    if orderedMatch.Some? {
      inList, listType, inParagraph, pushed := OpenList(inList0, listType0, inParagraph0, Ol);
      pushed := pushed + [Li(orderedMatch.value)];
      assert Classify(line) == ListItem(Ol, orderedMatch.value);
      return;
    }

    // `line.trim() === ''` holds exactly for a blank line (the contract of Trim).
    if IsBlank(line) {
      inList, listType, inParagraph, pushed := CloseBlocks(inList0, listType0, inParagraph0);
      assert Classify(line) == Blank;
      return;
    }

    inList, listType, inParagraph := inList0, listType0, inParagraph0;
    pushed := [];
    if inList {
      pushed := pushed + [if listType == Some(Ul) then UlClose else OlClose];
      inList := false;
      listType := None;
    }
    if !inParagraph {
      pushed := pushed + [POpen];
      inParagraph := true;
    } else {
      pushed := pushed + [ParagraphGap];
    }
    pushed := pushed + [line];
    assert Classify(line) == Text(line);
  }

  /** What a heading or a blank line does first: close the open list, then the open paragraph. */
  method CloseBlocks(inList0: bool, listType0: Option<ListType>, inParagraph0: bool)
    returns (inList: bool, listType: Option<ListType>, inParagraph: bool, pushed: seq<string>)
    ensures var list := CloseList(BlockState(inList0, listType0, inParagraph0));
      var para := CloseParagraph(list.0);
      BlockState(inList, listType, inParagraph) == para.0 && pushed == list.1 + para.1
  {
    inList, listType, inParagraph := inList0, listType0, inParagraph0;
    pushed := [];
    if inList {
      pushed := pushed + [if listType == Some(Ul) then UlClose else OlClose];
      inList := false;
      listType := None;
    }
    if inParagraph {
      pushed := pushed + [PClose];
      inParagraph := false;
    }
  }

  /** What a list item does first: close the open paragraph, then open a list of type `t` unless one is open. */
  method OpenList(inList0: bool, listType0: Option<ListType>, inParagraph0: bool, t: ListType)
    returns (inList: bool, listType: Option<ListType>, inParagraph: bool, pushed: seq<string>)
    ensures var para := CloseParagraph(BlockState(inList0, listType0, inParagraph0));
      var list := EnsureList(para.0, t);
      BlockState(inList, listType, inParagraph) == list.0 && pushed == para.1 + list.1
  {
    inList, listType, inParagraph := inList0, listType0, inParagraph0;
    pushed := [];
    if inParagraph {
      pushed := pushed + [PClose];
      inParagraph := false;
    }
    if !inList || listType != Some(t) {
      if inList {
        pushed := pushed + [if t == Ul then OlClose else UlClose];
      }
      pushed := pushed + [if t == Ul then UlOpen else OlOpen];
      inList := true;
      listType := Some(t);
    }
  }

  /** The line loop and close-out of parseMarkdown, over the lines of the escaped text. */
  method BlockPhase(lines: seq<string>) returns (processedLines: seq<string>)
    ensures processedLines == BlockFragments(lines)
    ensures NoLt(lines) ==> Balanced(processedLines)
  {
    processedLines := [];
    var inList := false;
    var listType: Option<ListType> := None;
    var inParagraph := false;

    for i := 0 to |lines|
      invariant Consistent(BlockState(inList, listType, inParagraph))
      invariant BlockState(inList, listType, inParagraph) == ScanFrom(Initial, Kinds(lines[..i])).0
      invariant processedLines == ScanFrom(Initial, Kinds(lines[..i])).1
      invariant NoLt(lines) ==> WalkFrom(Top, processedLines) == Some(OpenOf(BlockState(inList, listType, inParagraph)))
    {
      var line := lines[i];
      ghost var before := BlockState(inList, listType, inParagraph);
      ghost var prior := processedLines;
      var pushed;
      inList, listType, inParagraph, pushed := ProcessLine(inList, listType, inParagraph, line);
      processedLines := processedLines + pushed;

      ScanSnoc(Initial, Kinds(lines[..i]), Classify(line));
      assert Kinds(lines[..i + 1]) == Kinds(lines[..i]) + [Classify(line)];
      StepConsistent(before, Classify(line));
      if NoLt(lines) {
        assert '<' !in line;
        ClassifyText(line);
        StepWalk(before, Classify(line));
        WalkAppend(Top, prior, pushed);
      }
    }
    assert lines[..|lines|] == lines;

    ghost var last := BlockState(inList, listType, inParagraph);
    ghost var scanned := processedLines;
    if NoLt(lines) {
      CloseOutWalk(last);
      WalkAppend(Top, scanned, CloseOut(last));
    }
    if inList {
      processedLines := processedLines + [if listType == Some(Ul) then UlClose else OlClose];
    }
    if inParagraph {
      processedLines := processedLines + [PClose];
    }
  }

  // ---------------------------------------------------------------------
  // Lemmas about the scan
  // ---------------------------------------------------------------------

  /** Scanning `a + b` is scanning `a`, then `b` from where `a` left the flags. */
  lemma {:induction false} ScanAppend(st: BlockState, a: seq<LineKind>, b: seq<LineKind>)
    ensures ScanFrom(st, a + b).0 == ScanFrom(ScanFrom(st, a).0, b).0
    ensures ScanFrom(st, a + b).1 == ScanFrom(st, a).1 + ScanFrom(ScanFrom(st, a).0, b).1
    decreases |a|
  {
    if a == [] {
      assert a + b == b;
    } else {
      var ab := a + b;
      assert ab[0] == a[0] && ab[1..] == a[1..] + b;
      ScanAppend(Step(st, a[0]).0, a[1..], b);
      ScanCons(st, ab);
      ScanCons(st, a);
    }
  }

  /** The first line's step, then the rest. */
  lemma ScanCons(st: BlockState, ks: seq<LineKind>)
    requires ks != []
    ensures ScanFrom(st, ks).0 == ScanFrom(Step(st, ks[0]).0, ks[1..]).0
    ensures ScanFrom(st, ks).1 == Step(st, ks[0]).1 + ScanFrom(Step(st, ks[0]).0, ks[1..]).1
  {
  }

  lemma ScanSnoc(st: BlockState, a: seq<LineKind>, k: LineKind)
    ensures ScanFrom(st, a + [k]).0 == Step(ScanFrom(st, a).0, k).0
    ensures ScanFrom(st, a + [k]).1 == ScanFrom(st, a).1 + Step(ScanFrom(st, a).0, k).1
  {
    ScanAppend(st, a, [k]);
    assert [k][1..] == [];
  }

  /** Every line keeps the flags consistent. */
  lemma StepConsistent(st: BlockState, k: LineKind)
    requires Consistent(st)
    ensures Consistent(Step(st, k).0)
  {
  }

  lemma {:induction false} WalkAppend(o: Open, a: seq<string>, b: seq<string>)
    ensures WalkFrom(o, a + b) == match WalkFrom(o, a) case None => None case Some(o') => WalkFrom(o', b)
    decreases |a|
  {
    if a == [] {
      assert a + b == b;
    } else {
      assert (a + b)[0] == a[0] && (a + b)[1..] == a[1..] + b;
      match NextOpen(o, a[0])
      case None =>
      case Some(o') => WalkAppend(o', a[1..], b);
    }
  }

  lemma WalkTwo(o: Open, f: string, g: string)
    ensures WalkFrom(o, [f, g]) == match NextOpen(o, f) case None => None case Some(o') => NextOpen(o', g)
  {
    assert [f, g][1..] == [g];
    match NextOpen(o, f)
    case None =>
    case Some(o') => WalkOne(o', g);
  }

  lemma WalkThree(o: Open, f: string, g: string, h: string)
    ensures WalkFrom(o, [f, g, h]) == match NextOpen(o, f) case None => None case Some(o') => WalkFrom(o', [g, h])
  {
    assert [f, g, h][1..] == [g, h];
  }

  lemma WalkOne(o: Open, f: string)
    ensures WalkFrom(o, [f]) == NextOpen(o, f)
  {
    assert [f][1..] == [];
  }

  lemma NextOpenTags(o: Open, text: string)
    ensures NextOpen(o, H2(text)) == if o == Top then Some(Top) else None
    ensures NextOpen(o, H3(text)) == if o == Top then Some(Top) else None
    ensures NextOpen(o, Li(text)) == if o.InList? then Some(o) else None
    ensures NextOpen(o, UlOpen) == if o == Top then Some(InList(Ul)) else None
    ensures NextOpen(o, OlOpen) == if o == Top then Some(InList(Ol)) else None
    ensures NextOpen(o, POpen) == if o == Top then Some(InParagraph) else None
    ensures NextOpen(o, UlClose) == if o == InList(Ul) then Some(Top) else None
    ensures NextOpen(o, OlClose) == if o == InList(Ol) then Some(Top) else None
    ensures NextOpen(o, PClose) == if o == InParagraph then Some(Top) else None
    ensures NextOpen(o, ParagraphGap) == if o == InParagraph then Some(o) else None
  {
    assert H2(text)[0] == '<' && H2(text)[1] == 'h';
    assert H3(text)[0] == '<' && H3(text)[1] == 'h';
    assert Li(text)[0] == '<' && Li(text)[1] == 'l';
  }

  /** A text line keeps the whole line. */
  lemma ClassifyText(line: string)
    ensures Classify(line).Text? ==> Classify(line).line == line
  {
  }

  /** The fragments of one line take a reader from the open state before it to the one after it. */
  lemma StepWalk(st: BlockState, k: LineKind)
    requires Consistent(st) && (k.Text? ==> '<' !in k.line)
    ensures WalkFrom(OpenOf(st), Step(st, k).1) == Some(OpenOf(Step(st, k).0))
  {
    match k
    case Heading2(text) => HeadingWalk(st, H2(text));
    case Heading3(text) => HeadingWalk(st, H3(text));
    case ListItem(t, text) => ListItemWalk(st, t, text);
    case Blank => CloseOutWalk(st);
    case Text(line) => TextWalk(st, line);
  }

  /** A heading closes what is open and is read at top level. */
  lemma HeadingWalk(st: BlockState, h: string)
    requires Consistent(st) && |h| >= 2 && h[0] == '<' && h[1] == 'h'
    ensures WalkFrom(OpenOf(st), CloseOut(st) + [h]) == Some(Top)
  {
    CloseOutWalk(st);
    WalkAppend(OpenOf(st), CloseOut(st), [h]);
    WalkOne(Top, h);
  }

  lemma ListItemWalk(st: BlockState, t: ListType, text: string)
    requires Consistent(st)
    ensures WalkFrom(OpenOf(st), Step(st, ListItem(t, text)).1) == Some(OpenOf(Step(st, ListItem(t, text)).0))
  {
    var o := OpenOf(st);
    NextOpenTags(InList(t), text);
    WalkOne(InList(t), Li(text));
    NextOpenTags(Top, text);
    WalkTwo(Top, ListOpen(t), Li(text));
    NextOpenTags(o, text);
    if st.inParagraph {
      assert Step(st, ListItem(t, text)).1 == [PClose, ListOpen(t), Li(text)];
      WalkThree(o, PClose, ListOpen(t), Li(text));
    } else if st.inList && st.listType != Some(t) {
      var other := if t == Ul then Ol else Ul;
      assert st.listType == Some(other) by {
        assert st.listType.Some? && st.listType.value != t;
      }
      assert Step(st, ListItem(t, text)).1 == [ListClose(other), ListOpen(t), Li(text)];
      WalkThree(o, ListClose(other), ListOpen(t), Li(text));
    } else if st.inList {
      assert Step(st, ListItem(t, text)).1 == [Li(text)];
    } else {
      assert Step(st, ListItem(t, text)).1 == [ListOpen(t), Li(text)];
    }
  }

  lemma TextWalk(st: BlockState, line: string)
    requires Consistent(st) && '<' !in line
    ensures WalkFrom(OpenOf(st), Step(st, Text(line)).1) == Some(OpenOf(Step(st, Text(line)).0))
  {
    var o := OpenOf(st);
    NextOpenTags(o, line);
    NextOpenTags(Top, line);
    assert NextOpen(InParagraph, line) == Some(InParagraph);
    WalkOne(InParagraph, line);
    WalkTwo(Top, POpen, line);
    if st.inList {
      var close := if st.listType == Some(Ul) then UlClose else OlClose;
      assert Step(st, Text(line)).1 == [close, POpen, line];
      WalkThree(o, close, POpen, line);
    } else if st.inParagraph {
      assert Step(st, Text(line)).1 == [ParagraphGap, line];
      WalkTwo(o, ParagraphGap, line);
    } else {
      assert Step(st, Text(line)).1 == [POpen, line];
    }
  }

  /** The close-out leaves nothing open. */
  lemma CloseOutWalk(st: BlockState)
    requires Consistent(st)
    ensures WalkFrom(OpenOf(st), CloseOut(st)) == Some(Top)
  {
    NextOpenTags(OpenOf(st), "");
    WalkOne(OpenOf(st), PClose);
    WalkOne(OpenOf(st), UlClose);
    WalkOne(OpenOf(st), OlClose);
  }

  // ---------------------------------------------------------------------
  // The whole block phase
  // ---------------------------------------------------------------------

  /** The scan keeps the flags consistent and the fragments a reader can follow. */
  lemma {:induction false} ScanWalk(st: BlockState, ks: seq<LineKind>)
    requires Consistent(st)
    requires forall i :: 0 <= i < |ks| && ks[i].Text? ==> '<' !in ks[i].line
    ensures Consistent(ScanFrom(st, ks).0)
    ensures WalkFrom(OpenOf(st), ScanFrom(st, ks).1) == Some(OpenOf(ScanFrom(st, ks).0))
    decreases |ks|
  {
    if ks != [] {
      var first := Step(st, ks[0]);
      StepConsistent(st, ks[0]);
      StepWalk(st, ks[0]);
      ScanWalk(first.0, ks[1..]);
      WalkAppend(OpenOf(st), first.1, ScanFrom(first.0, ks[1..]).1);
    }
  }

  /**
   * Lines without `<` (as the escape phase leaves them) give balanced markup:
   * no two containers open at once, each closed by its own tag, nothing left
   * open at the end.
   */
  lemma BlockFragmentsBalanced(lines: seq<string>)
    requires NoLt(lines)
    ensures Balanced(BlockFragments(lines))
  {
    var ks := Kinds(lines);
    forall i | 0 <= i < |ks| && ks[i].Text? ensures '<' !in ks[i].line {
      ClassifyText(lines[i]);
    }
    ScanWalk(Initial, ks);
    var last := ScanFrom(Initial, ks).0;
    CloseOutWalk(last);
    WalkAppend(Top, ScanFrom(Initial, ks).1, CloseOut(last));
  }

  // ---------------------------------------------------------------------
  // What each kind of line does
  // ---------------------------------------------------------------------

  /** Closing the list and then the paragraph is the close-out, and leaves nothing open. */
  lemma CloseBoth(st: BlockState)
    requires Consistent(st)
    ensures CloseParagraph(CloseList(st).0).0 == Initial
    ensures CloseList(st).1 + CloseParagraph(CloseList(st).0).1 == CloseOut(st)
  {
  }

  /** A `## ` line closes what is open, then yields one h2 holding the rest of the line. */
  lemma Heading2Line(st: BlockState, line: string)
    requires Consistent(st) && StartsWith(line, "## ")
    ensures Step(st, Classify(line)).0 == Initial
    ensures Step(st, Classify(line)).1 == CloseOut(st) + [H2Open + line[3..] + H2Close]
  {
    assert Classify(line) == Heading2(line[3..]);
    CloseBoth(st);
  }

  /** A `### ` line closes what is open, then yields one h3 holding the rest of the line. */
  lemma Heading3Line(st: BlockState, line: string)
    requires Consistent(st) && StartsWith(line, "### ")
    ensures Step(st, Classify(line)).0 == Initial
    ensures Step(st, Classify(line)).1 == CloseOut(st) + [H3Open + line[4..] + H3Close]
  {
    assert line[2] == '#';
    assert Classify(line) == Heading3(line[4..]);
    CloseBoth(st);
  }

  /** A blank or whitespace-only line closes what is open and yields nothing. */
  lemma BlankLine(st: BlockState, line: string)
    requires Consistent(st) && IsBlank(line)
    ensures Step(st, Classify(line)).0 == Initial
    ensures Step(st, Classify(line)).1 == CloseOut(st)
  {
    if line != [] {
      assert IsWhitespace(line[0]);
      assert DigitRun(line) == 0;
    }
    assert Classify(line) == Blank;
    CloseBoth(st);
    assert CloseList(st).1 + CloseParagraph(CloseList(st).0).1 == CloseOut(st);
  }

  /**
   * A line of paragraph text closes an open list, then either opens a
   * paragraph or, inside one, is pushed after a separate `" "` fragment.
   */
  lemma PlainLine(st: BlockState, line: string)
    requires Consistent(st) && Classify(line).Text?
    ensures Step(st, Classify(line)).0 == BlockState(false, None, true)
    ensures Step(st, Classify(line)).1 ==
      if st.inParagraph then [ParagraphGap, line] else CloseOut(st) + [POpen, line]
  {
    ClassifyText(line);
    assert Classify(line) == Text(line);
    if st.inParagraph {
      assert CloseList(st).0 == st && CloseList(st).1 == [];
    } else {
      assert CloseList(st).1 == CloseOut(st);
    }
  }

  /** A `- ` line inside an ordered list closes it before opening an unordered one. */
  lemma BulletAfterOrdered(line: string)
    requires StartsWith(line, "- ")
    ensures Step(BlockState(true, Some(Ol), false), Classify(line)).0 == BlockState(true, Some(Ul), false)
    ensures Step(BlockState(true, Some(Ol), false), Classify(line)).1 == [OlClose, UlOpen, LiOpen + line[2..] + LiClose]
  {
    assert line[0] == '-';
    assert Classify(line) == ListItem(Ul, line[2..]);
    var st := BlockState(true, Some(Ol), false);
    assert CloseParagraph(st).0 == st && CloseParagraph(st).1 == [];
    assert EnsureList(st, Ul).0 == BlockState(true, Some(Ul), false);
    assert EnsureList(st, Ul).1 == [OlClose, UlOpen];
  }

  /** An ordered line inside an unordered list closes it before opening an ordered one. */
  lemma OrderedAfterBullet(line: string)
    requires OrderedItem(line).Some?
    ensures Step(BlockState(true, Some(Ul), false), Classify(line)).0 == BlockState(true, Some(Ol), false)
    ensures Step(BlockState(true, Some(Ul), false), Classify(line)).1 == [UlClose, OlOpen, LiOpen + OrderedItem(line).value + LiClose]
  {
    OrderedStartsWithDigit(line);
    var st := BlockState(true, Some(Ul), false);
    assert CloseParagraph(st).0 == st && CloseParagraph(st).1 == [];
    assert EnsureList(st, Ol).0 == BlockState(true, Some(Ol), false);
    assert EnsureList(st, Ol).1 == [UlClose, OlOpen];
  }

  /** An ordered item begins with a digit, so it is not a heading or a `- ` item. */
  lemma OrderedStartsWithDigit(line: string)
    requires OrderedItem(line).Some?
    ensures |line| > 0 && IsDigit(line[0])
    ensures !StartsWith(line, "## ") && !StartsWith(line, "### ") && !StartsWith(line, "- ")
    ensures Classify(line) == ListItem(Ol, OrderedItem(line).value)
  {
    assert DigitRun(line) > 0;
  }

  // ---------------------------------------------------------------------
  // Runs of lines
  // ---------------------------------------------------------------------

  /** One list item per text, in order. */
  function LiEach(texts: seq<string>): (r: seq<string>)
    ensures |r| == |texts| && forall i :: 0 <= i < |texts| ==> r[i] == Li(texts[i])
  {
    seq(|texts|, i requires 0 <= i < |texts| => Li(texts[i]))
  }

  /** Inside an open list of type `t`, items of that type only add their `<li>`s. */
  lemma {:induction false} ItemRun(t: ListType, ks: seq<LineKind>, texts: seq<string>)
    requires |ks| == |texts| && forall i :: 0 <= i < |ks| ==> ks[i] == ListItem(t, texts[i])
    ensures ScanFrom(BlockState(true, Some(t), false), ks).0 == BlockState(true, Some(t), false)
    ensures ScanFrom(BlockState(true, Some(t), false), ks).1 == LiEach(texts)
    decreases |ks|
  {
    if ks != [] {
      var open := BlockState(true, Some(t), false);
      ItemRun(t, ks[1..], texts[1..]);
      LiEachCons(texts);
      ItemStays(t, texts[0]);
      ScanCons(open, ks);
    }
  }

  /** Inside an open list of type `t`, an item of that type only adds its `<li>`. */
  lemma ItemStays(t: ListType, text: string)
    ensures Step(BlockState(true, Some(t), false), ListItem(t, text)) == (BlockState(true, Some(t), false), [Li(text)])
  {
    var open := BlockState(true, Some(t), false);
    assert CloseParagraph(open) == (open, []);
    assert EnsureList(open, t) == (open, []);
    assert [] + [] + [Li(text)] == [Li(text)];
  }

  /** Unordered lines: their bodies, `line.slice(2)`. */
  function BulletBodies(lines: seq<string>): (r: seq<string>)
    requires forall i :: 0 <= i < |lines| ==> StartsWith(lines[i], "- ")
    ensures |r| == |lines| && forall i :: 0 <= i < |lines| ==> lines[i] == "- " + r[i]
  {
    seq(|lines|, i requires 0 <= i < |lines| && StartsWith(lines[i], "- ") => lines[i][2..])
  }

  /** Ordered lines: capture group 2 of each. */
  function OrderedBodies(lines: seq<string>): (r: seq<string>)
    requires forall i :: 0 <= i < |lines| ==> OrderedItem(lines[i]).Some?
    ensures |r| == |lines| && forall i :: 0 <= i < |lines| ==> Some(r[i]) == OrderedItem(lines[i])
  {
    seq(|lines|, i requires 0 <= i < |lines| && OrderedItem(lines[i]).Some? => OrderedItem(lines[i]).value)
  }

  lemma PairThen<T>(x: T, y: T, s: seq<T>)
    ensures [x, y] + s == [x] + ([y] + s)
  {
  }

  /** From the initial flags, items of one type: the list is opened by the first. */
  lemma ListRun(t: ListType, ks: seq<LineKind>, texts: seq<string>)
    requires |ks| == |texts| >= 1 && forall i :: 0 <= i < |ks| ==> ks[i] == ListItem(t, texts[i])
    ensures ScanFrom(Initial, ks).0 == BlockState(true, Some(t), false)
    ensures ScanFrom(Initial, ks).1 == [ListOpen(t)] + LiEach(texts)
  {
    assert ks[0] == ListItem(t, texts[0]);
    FirstItemOpens(t, texts[0]);
    ScanCons(Initial, ks);
    ItemRun(t, ks[1..], texts[1..]);
    LiEachCons(texts);
    PairThen(ListOpen(t), Li(texts[0]), LiEach(texts[1..]));
  }

  lemma FirstItemOpens(t: ListType, text: string)
    ensures Step(Initial, ListItem(t, text)).0 == BlockState(true, Some(t), false)
    ensures Step(Initial, ListItem(t, text)).1 == [ListOpen(t), Li(text)]
  {
  }

  lemma LiEachCons(texts: seq<string>)
    requires |texts| >= 1
    ensures LiEach(texts) == [Li(texts[0])] + LiEach(texts[1..])
  {
  }

  /** Consecutive `- ` lines make one unordered list, one item per line, in order. */
  lemma BulletList(lines: seq<string>)
    requires |lines| >= 1 && forall i :: 0 <= i < |lines| ==> StartsWith(lines[i], "- ")
    ensures BlockFragments(lines) == [UlOpen] + LiEach(BulletBodies(lines)) + [UlClose]
  {
    var bodies := BulletBodies(lines);
    var ks := Kinds(lines);
    forall i | 0 <= i < |lines| ensures ks[i] == ListItem(Ul, bodies[i]) {
      assert lines[i][0] == '-';
    }
    ListRun(Ul, ks, bodies);
    assert CloseOut(BlockState(true, Some(Ul), false)) == [UlClose];
  }

  /** Consecutive ordered lines make one ordered list of their bodies, numerals dropped. */
  lemma OrderedList(lines: seq<string>)
    requires |lines| >= 1 && forall i :: 0 <= i < |lines| ==> OrderedItem(lines[i]).Some?
    ensures BlockFragments(lines) == [OlOpen] + LiEach(OrderedBodies(lines)) + [OlClose]
  {
    var bodies := OrderedBodies(lines);
    var ks := Kinds(lines);
    forall i | 0 <= i < |lines| ensures ks[i] == ListItem(Ol, bodies[i]) {
      OrderedStartsWithDigit(lines[i]);
    }
    ListRun(Ol, ks, bodies);
    assert CloseOut(BlockState(true, Some(Ol), false)) == [OlClose];
  }

  /** Each further line of a paragraph: the `" "` fragment, then the line. */
  function Spaced(ls: seq<string>): (r: seq<string>)
    ensures |r| == 2 * |ls|
  {
    if ls == [] then [] else [ParagraphGap, ls[0]] + Spaced(ls[1..])
  }

  lemma {:induction false} TextRun(ks: seq<LineKind>, ls: seq<string>)
    requires |ks| == |ls| && forall i :: 0 <= i < |ks| ==> ks[i] == Text(ls[i])
    ensures ScanFrom(BlockState(false, None, true), ks).0 == BlockState(false, None, true)
    ensures ScanFrom(BlockState(false, None, true), ks).1 == Spaced(ls)
    decreases |ks|
  {
    if ks != [] {
      TextRun(ks[1..], ls[1..]);
    }
  }

  /** Consecutive text lines share one paragraph. */
  lemma Paragraph(lines: seq<string>)
    requires |lines| >= 1 && forall i :: 0 <= i < |lines| ==> Classify(lines[i]).Text?
    ensures BlockFragments(lines) == [POpen, lines[0]] + Spaced(lines[1..]) + [PClose]
  {
    var ks := Kinds(lines);
    forall i | 0 <= i < |lines| ensures ks[i] == Text(lines[i]) {
      ClassifyText(lines[i]);
    }
    var open := BlockState(false, None, true);
    assert Step(Initial, ks[0]).0 == open;
    assert Step(Initial, ks[0]).1 == [POpen, lines[0]];
    TextRun(ks[1..], lines[1..]);
    assert CloseOut(open) == [PClose];
  }

  /** After the `'\n'` join, two text lines of one paragraph read `line1\n \nline2`. */
  lemma TwoLineParagraph(a: string, b: string)
    requires Classify(a).Text? && Classify(b).Text?
    ensures Join(BlockFragments([a, b]), '\n') == POpen + "\n" + a + "\n \n" + b + "\n" + PClose
  {
    Paragraph([a, b]);
    assert [a, b][1..] == [b];
    assert Spaced([b]) == [ParagraphGap, b];
    assert BlockFragments([a, b]) == [POpen, a, ParagraphGap, b, PClose];
    JoinFive(POpen, a, ParagraphGap, b, PClose);
  }

  lemma JoinFive(x1: string, x2: string, x3: string, x4: string, x5: string)
    ensures Join([x1, x2, x3, x4, x5], '\n') == x1 + "\n" + x2 + "\n" + x3 + "\n" + x4 + "\n" + x5
  {
    JoinCons(x4, [x5]);
    JoinCons(x3, [x4, x5]);
    JoinCons(x2, [x3, x4, x5]);
    JoinCons(x1, [x2, x3, x4, x5]);
  }

  lemma JoinCons(x: string, rest: seq<string>)
    requires rest != []
    ensures Join([x] + rest, '\n') == x + "\n" + Join(rest, '\n')
  {
    assert ([x] + rest)[0] == x && ([x] + rest)[1..] == rest;
  }

  // ---------------------------------------------------------------------
  // The ordered-item pattern
  // ---------------------------------------------------------------------

  lemma {:induction false} DigitRunExact(s: string, n: nat)
    requires n < |s| && (forall i :: 0 <= i < n ==> IsDigit(s[i])) && !IsDigit(s[n])
    ensures DigitRun(s) == n
    decreases n
  {
    if n > 0 {
      DigitRunExact(s[1..], n - 1);
    }
  }

  lemma {:induction false} WhitespaceRunAtLeast(s: string, n: nat)
    requires n <= |s| && IsBlank(s[..n])
    ensures WhitespaceRun(s) >= n
    decreases n
  {
    if n > 0 {
      assert IsWhitespace(s[..n][0]);
      assert s[1..][..n - 1] == s[..n][1..];
      WhitespaceRunAtLeast(s[1..], n - 1);
    }
  }

  /** Whatever OrderedItem returns is the body of a line of the pattern's shape. */
  lemma OrderedItemSound(line: string)
    requires OrderedItem(line).Some?
    ensures exists digits, space :: OrderedShape(line, digits, space, OrderedItem(line).value)
  {
    var body := OrderedItem(line).value;
    var d, rest, space := OrderedItemParts(line);
    var digits := line[..d];
    ShapeJoin(line, digits, rest, space, body);
    assert OrderedShape(line, digits, space, body);
  }

  /** A match is a digit run, a period, the whitespace `\s+` took, and the body. */
  lemma OrderedItemParts(line: string) returns (d: nat, rest: string, space: string)
    requires OrderedItem(line).Some?
    ensures 1 <= d < |line| && line[d] == '.' && rest == line[d + 1..]
    ensures forall i :: 0 <= i < d ==> IsDigit(line[i])
    ensures var body := OrderedItem(line).value;
      rest == space + body && |space| >= 1 && IsBlank(space) && |body| >= 1 && NoLineTerminator(body)
  {
    d := DigitRun(line);
    rest := line[d + 1..];
    space := AfterPeriodSound(rest, OrderedItem(line).value);
  }

  /** What follows the period splits into the whitespace `\s+` took and the body. */
  lemma AfterPeriodSound(rest: string, body: string) returns (space: string)
    requires var w := WhitespaceRun(rest);
      && w >= 1
      && (w < |rest| ==> NoLineTerminator(rest[w..]) && body == rest[w..])
      && (w == |rest| ==> w >= 2 && !IsLineTerminator(rest[w - 1]) && body == rest[w - 1..])
    ensures rest == space + body && |space| >= 1 && IsBlank(space)
    ensures |body| >= 1 && NoLineTerminator(body)
  {
    var w := WhitespaceRun(rest);
    space := if w < |rest| then rest[..w] else rest[..w - 1];
    assert IsBlank(space) by {
      assert forall i :: 0 <= i < |space| ==> space[i] == rest[..w][i];
    }
  }

  lemma ShapeJoin(line: string, digits: string, rest: string, space: string, body: string)
    requires |digits| < |line| && digits == line[..|digits|] && line[|digits|] == '.' && rest == line[|digits| + 1..]
    requires |digits| >= 1 && forall i :: 0 <= i < |digits| ==> IsDigit(line[i])
    requires rest == space + body && |space| >= 1 && IsBlank(space)
    requires |body| >= 1 && NoLineTerminator(body)
    ensures OrderedShape(line, digits, space, body)
  {
    assert line == digits + "." + rest;
    assert digits + "." + rest == digits + "." + space + body;
  }

  /**
   * Every line of the pattern's shape matches, and the body OrderedItem
   * returns is the shortest such body, a suffix of every other: the greedy
   * `\s+` takes all the whitespace it can.
   */
  lemma OrderedItemComplete(line: string, digits: string, space: string, body: string)
    requires OrderedShape(line, digits, space, body)
    ensures OrderedItem(line).Some?
    ensures |OrderedItem(line).value| <= |body| && OrderedItem(line).value == body[|body| - |OrderedItem(line).value|..]
  {
    ShapeSplit(line, digits, space, body);
    var rest := line[|digits| + 1..];
    AfterPeriodComplete(rest, space, body);
    var w := WhitespaceRun(rest);
    assert OrderedItem(line) == if w < |rest| then Some(rest[w..]) else Some(rest[w - 1..]);
  }

  lemma ShapeSplit(line: string, digits: string, space: string, body: string)
    requires OrderedShape(line, digits, space, body)
    ensures |digits| < |line| && line[|digits|] == '.' && DigitRun(line) == |digits|
    ensures line[|digits| + 1..] == space + body
  {
    var d := |digits|;
    assert line[d] == '.';
    assert forall i :: 0 <= i < d ==> line[i] == digits[i];
    DigitRunExact(line, d);
  }

  /** After the period, whitespace then a body: what `\s+(.+)` leaves for `.+`. */
  lemma AfterPeriodComplete(rest: string, space: string, body: string)
    requires rest == space + body && |space| >= 1 && IsBlank(space)
    requires |body| >= 1 && NoLineTerminator(body)
    ensures var w := WhitespaceRun(rest);
      && w >= 1
      && (w < |rest| ==> NoLineTerminator(rest[w..]) && |rest[w..]| <= |body| && rest[w..] == body[|body| - |rest[w..]|..])
      && (w == |rest| ==> w >= 2 && !IsLineTerminator(rest[w - 1]) && rest[w - 1..] == body[|body| - 1..])
  {
    assert rest[..|space|] == space;
    WhitespaceRunAtLeast(rest, |space|);
    var w := WhitespaceRun(rest);
    if w < |rest| {
      assert rest[w..] == body[w - |space|..];
      assert NoLineTerminator(rest[w..]) by {
        assert forall i :: 0 <= i < |rest[w..]| ==> rest[w..][i] == body[w - |space| + i];
      }
    } else {
      assert rest[w - 1] == body[|body| - 1];
      assert rest[w - 1..] == body[|body| - 1..];
    }
  }

  /** `1.` has nothing after the period: plain text. */
  lemma OrderedItemNoSpace()
    ensures OrderedItem("1.") == None && Classify("1.") == Text("1.")
  {
    DigitRunExact("1.", 1);
    assert !IsBlank("1.") by { assert !IsWhitespace("1."[0]); }
  }

  /** `1. ` has one space and nothing for `.+`: plain text. */
  lemma OrderedItemOneSpace()
    ensures OrderedItem("1. ") == None && Classify("1. ") == Text("1. ")
  {
    DigitRunExact("1. ", 1);
    assert "1. "[2..] == " ";
    assert WhitespaceRun(" ") == 1 by { assert " "[1..] == []; }
    assert !IsBlank("1. ") by { assert !IsWhitespace("1. "[0]); }
  }

  /** `1.  ` matches: `\s+` gives its second space back to `.+`. */
  lemma OrderedItemTwoSpaces()
    ensures OrderedItem("1.  ") == Some(" ")
  {
    DigitRunExact("1.  ", 1);
    assert "1.  "[2..] == "  ";
    assert WhitespaceRun("  ") == 2 by {
      assert "  "[1..] == " " && " "[1..] == [];
    }
    assert "  "[1..] == " ";
  }

  /** The numeral is dropped: `12. Step` yields the body `Step`. */
  lemma OrderedItemNumeral()
    ensures OrderedItem("12. Step") == Some("Step")
  {
    DigitRunExact("12. Step", 2);
    assert "12. Step"[3..] == " Step";
    assert WhitespaceRun(" Step") == 1 by {
      assert " Step"[1..] == "Step" && !IsWhitespace('S');
    }
    assert " Step"[1..] == "Step";
    assert NoLineTerminator("Step");
  }

  // ---------------------------------------------------------------------
  // Text that survives the scan
  // ---------------------------------------------------------------------

  /** The fragment a line of kind `k` pushes for itself, after what it closes or opens. */
  function LineFragment(k: LineKind): string {
    match k
    case Heading2(text) => H2(text)
    case Heading3(text) => H3(text)
    case ListItem(_, text) => Li(text)
    case Blank => []
    case Text(line) => line
  }

  /** Every line but a blank one pushes its own fragment last. */
  lemma StepLast(st: BlockState, k: LineKind)
    requires !k.Blank?
    ensures var out := Step(st, k).1; |out| > 0 && out[|out| - 1] == LineFragment(k)
  {
  }

  /** A lead without `&` in front of `p + e + q`, where `e` begins with `&`, lies inside `p`. */
  lemma DropLead(line: string, lead: string, p: string, e: string, q: string)
    requires line == p + e + q && e != [] && e[0] == '&'
    requires StartsWith(line, lead) && '&' !in lead
    ensures |lead| <= |p| && line[|lead|..] == p[|lead|..] + e + q
  {
    assert line[|p|] == '&';
    assert forall j :: 0 <= j < |lead| ==> line[j] == lead[j];
  }

  /** What the ordered-item pattern drops in front of its body: digits, a period, whitespace. */
  lemma OrderedLead(line: string) returns (lead: string)
    requires OrderedItem(line).Some?
    ensures '&' !in lead && line == lead + OrderedItem(line).value
  {
    var d, rest, space := OrderedItemParts(line);
    lead := LeadOfParts(line, d, rest, space, OrderedItem(line).value);
  }

  lemma LeadOfParts(line: string, d: nat, rest: string, space: string, body: string) returns (lead: string)
    requires d < |line| && line[d] == '.' && rest == line[d + 1..]
    requires forall i :: 0 <= i < d ==> IsDigit(line[i])
    requires rest == space + body && IsBlank(space)
    ensures '&' !in lead && line == lead + body
  {
    var numeral := line[..d + 1];
    lead := numeral + space;
    assert line == numeral + rest;
    assert forall i :: 0 <= i < |numeral| ==> numeral[i] == line[i] && numeral[i] != '&';
    assert forall i :: 0 <= i < |lead| ==> lead[i] != '&';
  }

  /** `e`, beginning with `&`, stays whole inside the fragment of the line that holds it. */
  lemma LineKeepsInfix(line: string, p: string, e: string, q: string) returns (p2: string, q2: string)
    requires line == p + e + q && e != [] && e[0] == '&'
    ensures !Classify(line).Blank? && LineFragment(Classify(line)) == p2 + e + q2
  {
    assert line[|p|] == '&' && !IsWhitespace('&');
    var lead, open, close := FragmentOf(line);
    DropLead(line, lead, p, e, q);
    p2, q2 := open + p[|lead|..], q + close;
  }

  /**
   * A line that is not blank pushes, for itself, a fixed tag, the line less a
   * lead without `&`, and a fixed tag.
   */
  lemma FragmentOf(line: string) returns (lead: string, open: string, close: string)
    requires !IsBlank(line)
    ensures StartsWith(line, lead) && '&' !in lead
    ensures !Classify(line).Blank? && LineFragment(Classify(line)) == open + line[|lead|..] + close
  {
    if StartsWith(line, "## ") {
      lead, open, close := "## ", H2Open, H2Close;
    } else if StartsWith(line, "### ") {
      lead, open, close := "### ", H3Open, H3Close;
    } else if StartsWith(line, "- ") {
      lead, open, close := "- ", LiOpen, LiClose;
    } else if OrderedItem(line).Some? {
      lead := OrderedLead(line);
      open, close := LiOpen, LiClose;
      assert line[|lead|..] == OrderedItem(line).value;
    } else {
      lead, open, close := [], [], [];
      assert line[0..] == line;
    }
  }

  /** `x + y + z` at `|x| + j` is `y[j]`. */
  lemma AtMiddle<T>(x: seq<T>, y: seq<T>, z: seq<T>, j: nat)
    requires j < |y|
    ensures (x + y + z)[|x| + j] == y[j]
  {
  }

  /** Such an `e` in line `i` stays whole inside one fragment of the block phase's output. */
  lemma FragmentsKeepInfix(lines: seq<string>, i: nat, p: string, e: string, q: string) returns (m: nat, p2: string, q2: string)
    requires i < |lines| && lines[i] == p + e + q && e != [] && e[0] == '&'
    ensures m < |BlockFragments(lines)| && BlockFragments(lines)[m] == p2 + e + q2
  {
    var ks := Kinds(lines);
    p2, q2 := LineKeepsInfix(lines[i], p, e, q);
    m := ScanHolds(Initial, ks, i);
    var (st, out) := ScanFrom(Initial, ks);
    assert BlockFragments(lines) == out + CloseOut(st);
  }

  /** The fragment of every line that is not blank is among the fragments the scan pushes. */
  lemma ScanHolds(st: BlockState, ks: seq<LineKind>, i: nat) returns (m: nat)
    requires i < |ks| && !ks[i].Blank?
    ensures m < |ScanFrom(st, ks).1| && ScanFrom(st, ks).1[m] == LineFragment(ks[i])
  {
    var before, after := ks[..i], ks[i..];
    assert ks == before + after;
    ScanAppend(st, before, after);
    var mid := ScanFrom(st, before).0;
    ScanCons(mid, after);
    StepLast(mid, after[0]);
    var head, own := ScanFrom(st, before).1, Step(mid, after[0]).1;
    var tail := ScanFrom(Step(mid, after[0]).0, after[1..]).1;
    m := |head| + |own| - 1;
    AtMiddle(head, own, tail, |own| - 1);
  }
}
