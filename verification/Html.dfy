/** The HTML normaliser, from the already parsed tree on: the recursive walk that
    renders text with heading marks, and the clean-up passes after it. The main
    result is that cleaning never loses visible text and always yields tidy
    spacing. */
module Html {
  import opened Text
  import opened Normalisers
  import opened Wrappers

  datatype Attr = Attr(key: string, val: string)

  /** The element kinds the walk tells apart; `Other` covers every inline element
      and the document node. */
  datatype Atom =
    | Script | Style | Noscript | Template | Svg | Iframe
    | Img | A
    | H1 | H2 | H3 | H4 | H5 | H6
    | P | Div | Section | Article | Header | Footer | MainEl | Aside | Nav
    | Ul | Ol | Li | Dl | Dt | Dd
    | Br | Hr
    | Blockquote | Pre | Figure | Figcaption
    | Table | Thead | Tbody | Tfoot | Tr | Td | Th
    | Other

  datatype Node =
    | TextNode(data: string)
    | CommentNode
    | DoctypeNode
    | Element(atom: Atom, attrs: seq<Attr>, children: seq<Node>)

  predicate IsDropped(a: Atom) {
    a.Script? || a.Style? || a.Noscript? || a.Template? || a.Svg? || a.Iframe?
  }

  predicate IsHeading(a: Atom) {
    a.H1? || a.H2? || a.H3? || a.H4? || a.H5? || a.H6?
  }

  function HeadingLevel(a: Atom): nat {
    match a
    case H1 => 1
    case H2 => 2
    case H3 => 3
    case H4 => 4
    case H5 => 5
    case _ => 6
  }

  predicate IsBlockElement(a: Atom) {
    || a.P? || a.Div? || a.Section? || a.Article? || a.Header? || a.Footer? || a.MainEl? || a.Aside? || a.Nav?
    || a.Ul? || a.Ol? || a.Li? || a.Dl? || a.Dt? || a.Dd? || a.Br? || a.Hr?
    || a.Blockquote? || a.Pre? || a.Figure? || a.Figcaption?
    || a.Table? || a.Thead? || a.Tbody? || a.Tfoot? || a.Tr? || a.Td? || a.Th?
  }

  function GetAttr(attrs: seq<Attr>, key: string): string {
    if attrs == [] then "" else if attrs[0].key == key then attrs[0].val else GetAttr(attrs[1..], key)
  }

  // ---- blanks ------------------------------------------------------------

  predicate Blank(c: char) { c == ' ' || c == '\t' }

  /** Runs of blanks as one space, given whether a blank was just seen. */
  function CollapseFrom(s: string, prevSpace: bool): string {
    if s == "" then ""
    else if !Blank(s[0]) then [s[0]] + CollapseFrom(s[1..], false)
    else if prevSpace then CollapseFrom(s[1..], true)
    else " " + CollapseFrom(s[1..], true)
  }

  function CollapseInline(s: string): string { CollapseFrom(s, false) }

  lemma CollapseStep(s: string, i: nat, prevSpace: bool)
    requires i < |s|
    ensures CollapseFrom(s[i..], prevSpace) ==
            if !Blank(s[i]) then [s[i]] + CollapseFrom(s[i + 1..], false)
            else if prevSpace then CollapseFrom(s[i + 1..], true)
            else " " + CollapseFrom(s[i + 1..], true)
  {
    assert s[i..][0] == s[i] && s[i..][1..] == s[i + 1..];
  }

  /** collapseInlineWhitespace, with its `prevSpace` flag and growing builder. */
  method CollapseInlineWhitespace(s: string) returns (b: string)
    ensures b == CollapseInline(s)
  {
    b := "";
    var prevSpace := false;
    for i := 0 to |s|
      invariant b + CollapseFrom(s[i..], prevSpace) == CollapseInline(s)
    {
      CollapseStep(s, i, prevSpace);
      var r := s[i];
      if r == ' ' || r == '\t' {
        if !prevSpace {
          b := b + " ";
          prevSpace := true;
        }
        continue;
      }
      prevSpace := false;
      b := b + [r];
    }
  }

  // ---- the walk ----------------------------------------------------------

  /** The text and boundary marks that walkHTML appends for a node. */
  function Render(n: Node): string
    decreases n, 0
  {
    match n
    case TextNode(data) => data
    case CommentNode => ""
    case DoctypeNode => ""
    case Element(atom, attrs, children) =>
      if IsDropped(atom) then ""
      else if atom.Img? then
        if GetAttr(attrs, "alt") != "" then GetAttr(attrs, "alt") + " " else ""
      else
        var inner := RenderAll(children);
        if atom.A? then inner + AnchorTitle(inner, attrs)
        else if IsHeading(atom) then HeadingBlock(HeadingLevel(atom), inner)
        else if IsBlockElement(atom) then "\n" + inner + "\n"
        else inner
  }

  function RenderAll(ns: seq<Node>): string
    decreases ns, 1
  {
    if ns == [] then "" else Render(ns[0]) + RenderAll(ns[1..])
  }

  function AnchorTitle(text: string, attrs: seq<Attr>): string {
    var title := GetAttr(attrs, "title");
    if title != "" && !Contains(text, title) then " " + title else ""
  }

  function HeadingBlock(level: nat, inner: string): string {
    var text := TrimSpace(CollapseInline(inner));
    if text == "" then "" else HeadingText(level, text)
  }

  function HeadingText(level: nat, text: string): string {
    "\n\n" + Repeat('#', level) + " " + text + "\n\n"
  }

  class Builder {
    var text: string

    constructor ()
      ensures text == ""
    {
      text := "";
    }

    method WriteString(s: string)
      modifies this
      ensures text == old(text) + s
    {
      text := text + s;
    }
  }

  lemma {:induction false} RenderAllSnoc(ns: seq<Node>, n: Node)
    ensures RenderAll(ns + [n]) == RenderAll(ns) + Render(n)
  {
    if ns == [] {
      assert ns + [n] == [n];
      assert RenderAll([n]) == Render(n) + RenderAll([n][1..]);
    } else {
      assert (ns + [n])[1..] == ns[1..] + [n];
      RenderAllSnoc(ns[1..], n);
    }
  }

  /** walkHTML: appends to a shared builder, with its own builder inside anchors
      and headings. */
  method WalkHTML(n: Node, b: Builder)
    modifies b
    ensures b.text == old(b.text) + Render(n)
    decreases n, 0
  {
    match n {
      case TextNode(data) => b.WriteString(data);
      case CommentNode =>
      case DoctypeNode =>
      case Element(atom, attrs, children) =>
        if IsDropped(atom) {
          return;
        }
        if atom.Img? {
          var alt := GetAttr(attrs, "alt");
          if alt != "" {
            b.WriteString(alt);
            b.WriteString(" ");
          }
          return;
        }
        if atom.A? {
          WalkAnchor(attrs, children, b);
          return;
        }
        if IsHeading(atom) {
          WalkHeading(HeadingLevel(atom), children, b);
          return;
        }
        var block := IsBlockElement(atom);
        if block { b.WriteString("\n"); }
        WalkChildren(children, b);
        if block { b.WriteString("\n"); }
    }
  }

  /** The anchor case: inner text, then the title unless the text already has it. */
  method WalkAnchor(attrs: seq<Attr>, children: seq<Node>, b: Builder)
    modifies b
    ensures b.text == old(b.text) + (RenderAll(children) + AnchorTitle(RenderAll(children), attrs))
    decreases children, 2
  {
    var inner := new Builder();
    WalkChildren(children, inner);
    var text := inner.text;
    assert text == RenderAll(children);
    b.WriteString(text);
    var title := GetAttr(attrs, "title");
    if title != "" && !Contains(text, title) {
      b.WriteString(" ");
      b.WriteString(title);
    }
  }

  /** The heading case: nothing for a heading without text. */
  method WalkHeading(level: nat, children: seq<Node>, b: Builder)
    modifies b
    ensures b.text == old(b.text) + HeadingBlock(level, RenderAll(children))
    decreases children, 2
  {
    var inner := new Builder();
    WalkChildren(children, inner);
    assert inner.text == RenderAll(children);
    var collapsed := CollapseInlineWhitespace(inner.text);
    var text := TrimSpace(collapsed);
    if text == "" {
      return;
    }
    WriteHeading(level, text, b);
  }

  method WriteHeading(level: nat, text: string, b: Builder)
    modifies b
    ensures b.text == old(b.text) + HeadingText(level, text)
  {
    AppendAll(b.text, "\n\n", Repeat('#', level), " ", text, "\n\n");
    b.WriteString("\n\n");
    b.WriteString(Repeat('#', level));
    b.WriteString(" ");
    b.WriteString(text);
    b.WriteString("\n\n");
  }

  lemma AppendAll(o: string, p: string, q: string, r: string, s: string, t: string)
    ensures o + p + q + r + s + t == o + (p + q + r + s + t)
  {
  }

  /** The sibling loop of walkHTML. */
  method WalkChildren(children: seq<Node>, b: Builder)
    modifies b
    ensures b.text == old(b.text) + RenderAll(children)
    decreases children, 1
  {
    for i := 0 to |children|
      invariant b.text == old(b.text) + RenderAll(children[..i])
    {
      WalkHTML(children[i], b);
      RenderAllSnoc(children[..i], children[i]);
      assert children[..i + 1] == children[..i] + [children[i]];
    }
    assert children[..|children|] == children;
  }

  // ---- the clean-up ------------------------------------------------------

  function TrimAll(lines: seq<string>): (r: seq<string>)
    ensures |r| == |lines| && forall i :: 0 <= i < |lines| ==> r[i] == TrimRight(lines[i], Blank)
  {
    if lines == [] then [] else [TrimRight(lines[0], Blank)] + TrimAll(lines[1..])
  }

  /** Blanks at the ends of lines removed, line by line. */
  function TrimLines(s: string): string {
    Join(TrimAll(Split(s, '\n')), '\n')
  }

  /** The same as one pass from the right. */
  function DropTrailing(s: string): string {
    if s == "" then ""
    else
      var t := DropTrailing(s[1..]);
      if Blank(s[0]) && (t == "" || t[0] == '\n') then t else [s[0]] + t
  }

  /** The loop over the split lines, which overwrites them one by one. */
  method TrimEachLine(s: string) returns (text: string)
    ensures text == TrimLines(s)
  {
    var split := Split(s, '\n');
    var lines := split;
    for i := 0 to |split|
      invariant |lines| == |split|
      invariant forall k :: 0 <= k < i ==> lines[k] == TrimRight(split[k], Blank)
      invariant forall k :: i <= k < |split| ==> lines[k] == split[k]
    {
      lines := lines[i := TrimRight(lines[i], Blank)];
    }
    assert lines == TrimAll(split);
    return Join(lines, '\n');
  }

  function HtmlText(doc: Node): string {
    TrimSpace(CapRuns(TrimLines(CollapseInline(UnixLines(Render(doc)))), '\n', 2))
  }

  /** HTMLNormaliser.Normalise, with the parser as a parameter. */
  method NormaliseHTML(content: string, parse: string -> Option<Node>) returns (text: string)
    ensures text == if TrimSpace(content) == "" || parse(content).None? then "" else HtmlText(parse(content).value)
  {
    if TrimSpace(content) == "" {
      return "";
    }
    var doc := parse(content);
    if doc.None? {
      return "";
    }
    var b := new Builder();
    WalkHTML(doc.value, b);
    assert "" + Render(doc.value) == Render(doc.value);
    text := ReplaceAll(b.text, "\r\n", "\n");
    text := ReplaceAll(text, "\r", "\n");
    text := CollapseInlineWhitespace(text);
    text := TrimEachLine(text);
    text := CollapseRuns(text, '\n', 2);
    return TrimSpace(text);
  }

  // ---- visible text ------------------------------------------------------

  /** What a reader sees of a tree: the non-space characters of its text nodes and
      image alternatives outside the dropped elements. */
  function Visible(n: Node): string
    decreases n, 0
  {
    match n
    case TextNode(data) => NonSpace(data)
    case CommentNode => ""
    case DoctypeNode => ""
    case Element(atom, attrs, children) =>
      if IsDropped(atom) then ""
      else if atom.Img? then NonSpace(GetAttr(attrs, "alt"))
      else VisibleAll(children)
  }

  function VisibleAll(ns: seq<Node>): string
    decreases ns, 1
  {
    if ns == [] then "" else Visible(ns[0]) + VisibleAll(ns[1..])
  }

  lemma {:induction false} CollapseKeeps(s: string, prevSpace: bool)
    ensures NonSpace(CollapseFrom(s, prevSpace)) == NonSpace(s)
  {
    if s != "" {
      CollapseKeeps(s[1..], Blank(s[0]));
      var t := CollapseFrom(s[1..], Blank(s[0]));
      assert ([s[0]] + t)[1..] == t && (" " + t)[1..] == t;
    }
  }

  lemma {:induction false} DropKeeps(s: string)
    ensures NonSpace(DropTrailing(s)) == NonSpace(s)
  {
    if s != "" {
      DropKeeps(s[1..]);
      assert ([s[0]] + DropTrailing(s[1..]))[1..] == DropTrailing(s[1..]);
    }
  }

  lemma {:induction false} TrimRightStep(c: char, s: string)
    ensures TrimRight([c] + s, Blank) ==
            if TrimRight(s, Blank) == "" && Blank(c) then "" else [c] + TrimRight(s, Blank)
    decreases |s|
  {
    var w := [c] + s;
    if s == "" {
      assert w == [c] && w[..0] == "";
    } else {
      assert w[|w| - 1] == s[|s| - 1] && w[..|w| - 1] == [c] + s[..|s| - 1];
      TrimRightStep(c, s[..|s| - 1]);
    }
  }

  /** Trimming line by line is the one pass from the right. */
  lemma {:induction false} TrimLinesIsDrop(s: string)
    ensures TrimLines(s) == DropTrailing(s)
  {
    if s == "" {
      assert TrimAll([""]) == [""];
    } else {
      TrimLinesIsDrop(s[1..]);
      var rest := Split(s[1..], '\n');
      if s[0] == '\n' {
        assert TrimAll([""] + rest) == [""] + TrimAll(rest);
        assert ([""] + TrimAll(rest))[1..] == TrimAll(rest);
      } else {
        JoinSplit(s[1..], '\n');
        TrimFirstLine(s[0], rest[0], rest[1..]);
        assert [rest[0]] + rest[1..] == rest;
      }
    }
  }

  lemma TrimAllCons(line: string, rest: seq<string>)
    ensures TrimAll([line] + rest) == [TrimRight(line, Blank)] + TrimAll(rest)
  {
    assert ([line] + rest)[0] == line && ([line] + rest)[1..] == rest;
  }

  /** A character in front of the first line. */
  lemma TrimFirstLine(c: char, line: string, rest: seq<string>)
    requires c != '\n' && '\n' !in line
    ensures var t := Join(TrimAll([line] + rest), '\n');
            Join(TrimAll([[c] + line] + rest), '\n') == if Blank(c) && (t == "" || t[0] == '\n') then t else [c] + t
  {
    TrimAllCons(line, rest);
    TrimAllCons([c] + line, rest);
    TrimRightStep(c, line);
    var x, y := TrimRight(line, Blank), TrimRight([c] + line, Blank);
    assert x != "" ==> x[0] in line;
    JoinFirst(c, x, y, TrimAll(rest));
  }

  lemma JoinFirst(c: char, x: string, y: string, rest: seq<string>)
    requires x != "" ==> x[0] != '\n'
    requires y == if x == "" && Blank(c) then "" else [c] + x
    ensures var t := Join([x] + rest, '\n');
            Join([y] + rest, '\n') == if Blank(c) && (t == "" || t[0] == '\n') then t else [c] + t
  {
    JoinHead(x, y, rest);
    var tail := if rest == [] then "" else "\n" + Join(rest, '\n');
    assert [c] + x + tail == [c] + (x + tail);
    assert x == "" ==> x + tail == tail;
  }

  lemma JoinHead(x: string, y: string, rest: seq<string>)
    ensures var tail := if rest == [] then "" else "\n" + Join(rest, '\n');
            Join([x] + rest, '\n') == x + tail && Join([y] + rest, '\n') == y + tail
  {
    assert ([x] + rest)[1..] == rest && ([y] + rest)[1..] == rest;
    assert x + "" == x && y + "" == y;
    assert rest != [] ==> x + ['\n'] + Join(rest, '\n') == x + ("\n" + Join(rest, '\n'));
    assert rest != [] ==> y + ['\n'] + Join(rest, '\n') == y + ("\n" + Join(rest, '\n'));
  }

  /** Cleaning keeps every non-space character of the rendered text, in order. */
  lemma CleaningKeepsText(doc: Node)
    ensures NonSpace(HtmlText(doc)) == NonSpace(Render(doc))
  {
    var s0 := Render(doc);
    assert NonSpace("\r\n") == NonSpace("\n") by { NonSpaceOfSpace("\r\n"); NonSpaceOfSpace("\n"); }
    assert NonSpace("\r") == NonSpace("\n") by { NonSpaceOfSpace("\r"); NonSpaceOfSpace("\n"); }
    ReplaceKeeps(s0, "\r\n", "\n");
    ReplaceKeeps(ReplaceAll(s0, "\r\n", "\n"), "\r", "\n");
    var s1 := UnixLines(s0);
    CollapseKeeps(s1, false);
    var s2 := CollapseInline(s1);
    TrimLinesIsDrop(s2);
    DropKeeps(s2);
    CapKeeps(TrimLines(s2), '\n', 2, 0);
    TrimKeeps(CapRuns(TrimLines(s2), '\n', 2));
  }

  /** Visible text survives rendering, in order. */
  lemma {:induction false} VisibleIsRendered(n: Node)
    ensures Subsequence(Visible(n), NonSpace(Render(n)))
    decreases n, 0
  {
    match n {
      case TextNode(data) => SubsequenceSelf(NonSpace(data));
      case CommentNode =>
      case DoctypeNode =>
      case Element(atom, attrs, children) =>
        if IsDropped(atom) {
        } else if atom.Img? {
          var alt := GetAttr(attrs, "alt");
          NonSpaceAppend(alt, " ");
          Surrounded(NonSpace(alt), "", NonSpace(alt), NonSpace(" "));
          assert "" + NonSpace(alt) == NonSpace(alt);
        } else {
          AllVisibleRendered(children);
          var inner := RenderAll(children);
          var v := VisibleAll(children);
          if atom.A? {
            NonSpaceAppend(inner, AnchorTitle(inner, attrs));
            Surrounded(v, "", NonSpace(inner), NonSpace(AnchorTitle(inner, attrs)));
            assert "" + NonSpace(inner) == NonSpace(inner);
          } else if IsHeading(atom) {
            HeadingKeeps(HeadingLevel(atom), inner, v);
          } else if IsBlockElement(atom) {
            NonSpaceAppend("\n" + inner, "\n");
            NonSpaceAppend("\n", inner);
            Surrounded(v, NonSpace("\n"), NonSpace(inner), NonSpace("\n"));
          }
        }
    }
  }

  lemma {:induction false} AllVisibleRendered(ns: seq<Node>)
    ensures Subsequence(VisibleAll(ns), NonSpace(RenderAll(ns)))
    decreases ns, 1
  {
    if ns != [] {
      VisibleIsRendered(ns[0]);
      AllVisibleRendered(ns[1..]);
      NonSpaceAppend(Render(ns[0]), RenderAll(ns[1..]));
      SubsequenceConcat(Visible(ns[0]), NonSpace(Render(ns[0])), VisibleAll(ns[1..]), NonSpace(RenderAll(ns[1..])));
    }
  }

  lemma HeadingKeeps(level: nat, inner: string, v: string)
    requires Subsequence(v, NonSpace(inner))
    ensures Subsequence(v, NonSpace(HeadingBlock(level, inner)))
  {
    CollapseKeeps(inner, false);
    TrimKeeps(CollapseInline(inner));
    var text := TrimSpace(CollapseInline(inner));
    if text != "" {
      var before := "\n\n" + Repeat('#', level) + " ";
      NonSpaceAppend(before + text, "\n\n");
      NonSpaceAppend(before, text);
      assert HeadingBlock(level, inner) == before + text + "\n\n";
      Surrounded(v, NonSpace(before), NonSpace(text), NonSpace("\n\n"));
    }
  }

  // ---- spacing -----------------------------------------------------------

  /** No blank is followed by a blank. */
  predicate NoBlankPair(s: string) {
    forall i :: 0 <= i < |s| - 1 ==> !(Blank(s[i]) && Blank(s[i + 1]))
  }

  /** No blank is followed by a line feed. */
  predicate NoTrailingBlank(s: string) {
    forall i :: 0 <= i < |s| - 1 ==> !(Blank(s[i]) && s[i + 1] == '\n')
  }

  lemma {:induction false} CollapseSpacing(s: string, prevSpace: bool)
    ensures var t := CollapseFrom(s, prevSpace);
            NoBlankPair(t) && (prevSpace && t != "" ==> !Blank(t[0]))
  {
    if s != "" { CollapseSpacing(s[1..], Blank(s[0])); }
  }

  lemma {:induction false} DropSpacing(s: string)
    requires NoBlankPair(s)
    ensures NoBlankPair(DropTrailing(s)) && NoTrailingBlank(DropTrailing(s))
    ensures s != "" && !Blank(s[0]) ==> DropTrailing(s) != "" && DropTrailing(s)[0] == s[0]
  {
    if s != "" {
      forall i | 0 <= i < |s[1..]| - 1 ensures !(Blank(s[1..][i]) && Blank(s[1..][i + 1])) {
        assert s[1..][i] == s[i + 1] && s[1..][i + 1] == s[i + 2];
      }
      DropSpacing(s[1..]);
      if |s| > 1 { assert s[1..][0] == s[0 + 1]; }
    }
  }

  lemma {:induction false} CapSpacing(s: string, k: nat, run: nat)
    requires k > 0 && NoBlankPair(s) && NoTrailingBlank(s)
    ensures var t := CapFrom(s, '\n', k, run);
            NoBlankPair(t) && NoTrailingBlank(t)
    ensures s != "" && s[0] != '\n' ==> CapFrom(s, '\n', k, run) != "" && CapFrom(s, '\n', k, run)[0] == s[0]
  {
    if s != "" {
      assert NoBlankPair(s[1..]) && NoTrailingBlank(s[1..]) by {
        forall i | 0 <= i < |s[1..]| - 1
          ensures !(Blank(s[1..][i]) && (Blank(s[1..][i + 1]) || s[1..][i + 1] == '\n'))
        {
          assert s[1..][i] == s[i + 1] && s[1..][i + 1] == s[i + 2];
        }
      }
      CapSpacing(s[1..], k, if s[0] != '\n' then 0 else if run < k then run + 1 else run);
      if |s| > 1 { assert s[1..][0] == s[0 + 1]; }
      if |s| == 1 { assert s[1..] == ""; }
    }
  }

  lemma MiddleSpacing(a: string, s: string, b: string)
    requires NoBlankPair(a + s + b) && NoTrailingBlank(a + s + b)
    ensures NoBlankPair(s) && NoTrailingBlank(s)
  {
    var w := a + s + b;
    forall i | 0 <= i < |s| - 1 ensures !(Blank(s[i]) && (Blank(s[i + 1]) || s[i + 1] == '\n')) {
      assert w[|a| + i] == s[i] && w[|a| + i + 1] == s[i + 1];
    }
  }

  /** For every tree: all visible text is in the output, in order, and the output
      has no three line feeds in a row, no two adjacent blanks, no blank before a
      line feed and no white space at its ends. */
  lemma HtmlOutput(doc: Node)
    ensures Subsequence(Visible(doc), NonSpace(HtmlText(doc)))
    ensures !Contains(HtmlText(doc), "\n\n\n")
    ensures NoBlankPair(HtmlText(doc)) && NoTrailingBlank(HtmlText(doc))
    ensures Trimmed(HtmlText(doc))
  {
    VisibleIsRendered(doc);
    CleaningKeepsText(doc);
    var s2 := CollapseInline(UnixLines(Render(doc)));
    var s3 := TrimLines(s2);
    var s4 := CapRuns(s3, '\n', 2);
    CollapseSpacing(UnixLines(Render(doc)), false);
    TrimLinesIsDrop(s2);
    DropSpacing(s2);
    CapSpacing(s3, 2, 0);
    CapIsCapped(s3, '\n', 2, 0);
    CappedNewlines(s4);
    var a, b := TrimSpaceShape(s4);
    MiddleSpacing(a, HtmlText(doc), b);
    if Contains(HtmlText(doc), "\n\n\n") { ContainsInMiddle(a, HtmlText(doc), b, "\n\n\n"); }
  }
}
