/** What the HTML normaliser promises about words and lines: cleaning runs no two of
    them together, block elements and headings stand on lines of their own, and outside
    headings and titled links nothing is added to what a reader sees. */
module HtmlPromises {
  import opened Html
  import opened Normalisers
  import opened Text
  import opened TextPieces

  // ---- the clean-up ------------------------------------------------------

  /** Collapsing blanks drops none that separates. */
  lemma {:induction false} CollapseAlike(s: string, prevSpace: bool, u: Unit)
    ensures Pieces(CollapseFrom(s, prevSpace), u) == Pieces(s, u)
    ensures !prevSpace || u.Line? ==> (Joined(CollapseFrom(s, prevSpace), u) <==> Joined(s, u))
  {
    if s != "" {
      var t := CollapseFrom(s[1..], Blank(s[0]));
      CollapseAlike(s[1..], Blank(s[0]), u);
      PutPieces(s[0], t, u);
      PutPieces(s[0], s[1..], u);
      PutPieces(' ', t, u);
      assert s == [s[0]] + s[1..] && [' '] + t == " " + t;
    }
  }

  /** Nor does dropping blanks at the ends of lines. */
  lemma {:induction false} DropAlike(s: string, u: Unit)
    ensures Alike(DropTrailing(s), s, u)
  {
    if s != "" {
      var t := DropTrailing(s[1..]);
      DropAlike(s[1..], u);
      ConsAlike(s[0], t, s[1..], u);
      PutPieces(s[0], s[1..], u);
      assert s == [s[0]] + s[1..];
      assert t == "" || t[0] == '\n' ==> !Joined(t, u);
    }
  }

  /** Every word and every line of the rendered text is in the result, in order and
      apart. */
  lemma HtmlKeepsPieces(doc: Node, u: Unit)
    ensures Pieces(HtmlText(doc), u) == Pieces(Render(doc), u)
  {
    var s1 := UnixLines(Render(doc));
    var s2 := CollapseInline(s1);
    UnixLinesAlike(Render(doc), u);
    CollapseAlike(s1, false, u);
    TrimLinesIsDrop(s2);
    DropAlike(s2, u);
    CapAlike(TrimLines(s2), '\n', 2, 0, u);
    TrimAlike(CapRuns(TrimLines(s2), '\n', 2), u);
  }

  // ---- clean texts -------------------------------------------------------

  /** What is clean: single spaces for blanks, none at the end of a line, at most one
      empty line in a row, and no white space at the ends. */
  predicate CleanHtml(s: string) {
    Plainly(s) && NoBlankPair(s) && NoTrailingBlank(s) && !Contains(s, "\n\n\n") && Trimmed(s)
  }

  lemma {:induction false} CollapseChars(s: string, prevSpace: bool)
    ensures forall c :: c in CollapseFrom(s, prevSpace) ==> c == ' ' || (c in s && c != '\t')
  {
    if s != "" { CollapseChars(s[1..], Blank(s[0])); }
  }

  lemma {:induction false} DropChars(s: string)
    ensures forall c :: c in DropTrailing(s) ==> c in s
  {
    if s != "" { DropChars(s[1..]); }
  }

  lemma TrimmedChars(s: string, c: char)
    requires c !in s
    ensures c !in TrimSpace(CapRuns(s, '\n', 2))
  {
    CapChars(s, '\n', 2, 0);
    var a, b := TrimSpaceShape(CapRuns(s, '\n', 2));
  }

  lemma CollapsedChars(s: string)
    requires '\r' !in s
    ensures '\r' !in CollapseInline(s) && '\t' !in CollapseInline(s)
  {
    CollapseChars(s, false);
  }

  lemma LineChars(s: string, c: char)
    requires c !in s
    ensures c !in TrimLines(s)
  {
    TrimLinesIsDrop(s);
    DropChars(s);
  }

  predicate Plainly(s: string) {
    '\r' !in s && '\t' !in s
  }

  lemma CleanedFrom(s: string)
    requires '\r' !in s
    ensures Plainly(TrimSpace(CapRuns(TrimLines(CollapseInline(s)), '\n', 2)))
  {
    var t := CollapseInline(s);
    CollapsedChars(s);
    LineChars(t, '\r');
    LineChars(t, '\t');
    TrimmedChars(TrimLines(t), '\r');
    TrimmedChars(TrimLines(t), '\t');
  }

  lemma NoReturns(s: string)
    ensures '\r' !in UnixLines(s)
  {
    UnixLinesClean(s);
  }

  lemma CleanedString(s: string)
    ensures Plainly(TrimSpace(CapRuns(TrimLines(CollapseInline(UnixLines(s))), '\n', 2)))
  {
    NoReturns(s);
    CleanedFrom(UnixLines(s));
  }

  lemma CleanedChars(doc: Node)
    ensures Plainly(HtmlText(doc))
  {
    CleanedString(Render(doc));
  }

  lemma PairInTail(s: string)
    requires s != "" && NoBlankPair(s) && NoTrailingBlank(s)
    ensures NoBlankPair(s[1..]) && NoTrailingBlank(s[1..])
  {
    assert s[..1] + s[1..] + "" == s;
    MiddleSpacing(s[..1], s[1..], "");
  }

  lemma {:induction false} CollapseFixed(s: string, prevSpace: bool)
    requires '\t' !in s && NoBlankPair(s) && NoTrailingBlank(s) && (prevSpace && s != "" ==> !Blank(s[0]))
    ensures CollapseFrom(s, prevSpace) == s
  {
    if s != "" {
      PairInTail(s);
      assert |s| > 1 ==> s[1..][0] == s[0 + 1];
      CollapseFixed(s[1..], Blank(s[0]));
    }
  }

  lemma {:induction false} DropFixed(s: string)
    requires NoBlankPair(s) && NoTrailingBlank(s) && (s != "" ==> !Blank(s[|s| - 1]))
    ensures DropTrailing(s) == s
  {
    if |s| > 1 {
      PairInTail(s);
      assert s[1..][|s| - 2] == s[|s| - 1] && s[1..][0] == s[0 + 1];
      DropFixed(s[1..]);
    }
  }

  lemma CleanHtmlFixed(s: string)
    requires CleanHtml(s)
    ensures HtmlText(TextNode(s)) == s
  {
    UnixLinesClean(s);
    CollapseFixed(s, false);
    assert s != "" ==> !Blank(s[|s| - 1]);
    DropFixed(s);
    TrimLinesIsDrop(s);
    CappedNewlines(s);
    CapIsCapped(s, '\n', 2, 0);
    var a, b := TrimSpaceShape(s);
  }

  /** The output is clean for every tree, and a clean text is left alone: exactly the
      clean texts are. */
  lemma HtmlFixedPoints(doc: Node, s: string)
    ensures CleanHtml(HtmlText(doc))
    ensures HtmlText(TextNode(s)) == s <==> CleanHtml(s)
    ensures HtmlText(TextNode(HtmlText(doc))) == HtmlText(doc)
  {
    HtmlOutput(doc);
    CleanedChars(doc);
    CleanHtmlFixed(HtmlText(doc));
    HtmlOutput(TextNode(s));
    CleanedChars(TextNode(s));
    if CleanHtml(s) { CleanHtmlFixed(s); }
  }

  // ---- what the walk writes ----------------------------------------------

  /** Of attributes with the same name the first counts; an absent one is empty. */
  lemma {:induction false} AttrIsFirst(attrs: seq<Attr>, key: string, i: nat)
    requires i <= |attrs| && forall j :: 0 <= j < i ==> attrs[j].key != key
    ensures i < |attrs| && attrs[i].key == key ==> GetAttr(attrs, key) == attrs[i].val
    ensures i == |attrs| ==> GetAttr(attrs, key) == ""
  {
    if i > 0 {
      assert forall j :: 0 <= j < i - 1 ==> attrs[1..][j] == attrs[j + 1];
      assert i < |attrs| ==> attrs[1..][i - 1] == attrs[i];
      AttrIsFirst(attrs[1..], key, i - 1);
    }
  }

  lemma {:induction false} RenderAllAppend(xs: seq<Node>, ys: seq<Node>)
    ensures RenderAll(xs + ys) == RenderAll(xs) + RenderAll(ys)
  {
    if xs == [] {
      assert xs + ys == ys;
    } else {
      assert (xs + ys)[1..] == xs[1..] + ys;
      RenderAllAppend(xs[1..], ys);
    }
  }

  lemma RenderAround(xs: seq<Node>, n: Node, ys: seq<Node>)
    ensures RenderAll(xs + [n] + ys) == RenderAll(xs) + Render(n) + RenderAll(ys)
  {
    RenderAllAppend(xs + [n], ys);
    RenderAllSnoc(xs, n);
  }

  /** A block element starts and ends a line among its siblings: neither words nor lines
      run together across its edges. */
  lemma BlockStandsAlone(xs: seq<Node>, n: Node, ys: seq<Node>, u: Unit)
    requires n.Element?
    requires n.atom in {P, Div, Section, Article, Header, Footer, MainEl, Aside, Nav, Ul, Ol, Li, Dl, Dt, Dd, Br, Hr,
                        Blockquote, Pre, Figure, Figcaption, Table, Thead, Tbody, Tfoot, Tr, Td, Th}
    ensures Pieces(RenderAll(xs + [n] + ys), u) ==
              Pieces(RenderAll(xs), u) + Pieces(RenderAll(n.children), u) + Pieces(RenderAll(ys), u)
  {
    BlockAtoms(n.atom);
    PlainRendered(n);
    RenderAround(xs, n, ys);
    EdgesApart(RenderAll(xs), RenderAll(n.children), RenderAll(ys), u);
  }

  predicate Plain(a: Atom) {
    !IsDropped(a) && !a.Img? && !a.A? && !IsHeading(a)
  }

  lemma BlockAtoms(a: Atom)
    requires a in {P, Div, Section, Article, Header, Footer, MainEl, Aside, Nav, Ul, Ol, Li, Dl, Dt, Dd, Br, Hr,
                   Blockquote, Pre, Figure, Figcaption, Table, Thead, Tbody, Tfoot, Tr, Td, Th}
    ensures IsBlockElement(a) && Plain(a)
  {
  }

  lemma PlainRendered(n: Node)
    requires n.Element? && Plain(n.atom)
    ensures Render(n) == if IsBlockElement(n.atom) then "\n" + RenderAll(n.children) + "\n" else RenderAll(n.children)
  {
  }

  lemma EdgesApart(a: string, m: string, b: string, u: Unit)
    ensures Pieces(a + ("\n" + m + "\n") + b, u) == Pieces(a, u) + Pieces(m, u) + Pieces(b, u)
  {
    var am := a + ['\n'] + m;
    PiecesApart(am, '\n', b, u);
    PiecesApart(a, '\n', m, u);
    EdgesRegrouped(a, m, b);
  }

  lemma EdgesRegrouped(a: string, m: string, b: string)
    ensures a + ("\n" + m + "\n") + b == (a + ['\n'] + m) + ['\n'] + b
  {
  }

  /** Any other element is inline: its children's text joins that of its siblings. */
  lemma InlineJoins(xs: seq<Node>, n: Node, ys: seq<Node>)
    requires n.Element? && n.atom.Other?
    ensures RenderAll(xs + [n] + ys) == RenderAll(xs + n.children + ys)
  {
    PlainRendered(n);
    RenderAround(xs, n, ys);
    RenderAllAppend(xs + n.children, ys);
    RenderAllAppend(xs, n.children);
  }

  /** Scripts, styles and their like, comments and doctypes might as well be absent. */
  lemma DroppedIsAbsent(xs: seq<Node>, n: Node, ys: seq<Node>)
    requires n.CommentNode? || n.DoctypeNode?
             || (n.Element? && n.atom in {Script, Style, Noscript, Template, Svg, Iframe})
    ensures RenderAll(xs + [n] + ys) == RenderAll(xs + ys)
  {
    RenderAround(xs, n, ys);
    RenderAllAppend(xs, ys);
    assert RenderAll(xs) + "" == RenderAll(xs);
  }

  /** An image stands for its alternative text, apart from what follows. */
  lemma ImageIsItsAlt(n: Node, ys: seq<Node>)
    requires n.Element? && n.atom.Img?
    ensures Pieces(RenderAll([n] + ys), Word) == Pieces(GetAttr(n.attrs, "alt"), Word) + Pieces(RenderAll(ys), Word)
  {
    assert ([n] + ys)[1..] == ys;
    var alt := GetAttr(n.attrs, "alt");
    if alt == "" {
      assert "" + RenderAll(ys) == RenderAll(ys) && [] + Pieces(RenderAll(ys), Word) == Pieces(RenderAll(ys), Word);
    } else {
      PiecesApart(alt, ' ', RenderAll(ys), Word);
      assert alt + " " + RenderAll(ys) == alt + [' '] + RenderAll(ys);
    }
  }

  /** A link's title follows its text as further words, unless the text has it. */
  lemma TitleFollowsText(n: Node)
    requires n.Element? && n.atom.A?
    ensures var text, title := RenderAll(n.children), GetAttr(n.attrs, "title");
            Pieces(Render(n), Word) == if Contains(text, title) then Pieces(text, Word)
                                       else Pieces(text, Word) + Pieces(title, Word)
  {
    var text, title := RenderAll(n.children), GetAttr(n.attrs, "title");
    if title == "" || Contains(text, title) {
      assert title == "" ==> title <= text;
      assert text + "" == text;
    } else {
      PiecesApart(text, ' ', title, Word);
      assert text + (" " + title) == text + [' '] + title;
    }
  }

  // ---- headings ----------------------------------------------------------

  predicate HasLevel(a: Atom, k: nat) {
    (a, k) in {(H1, 1), (H2, 2), (H3, 3), (H4, 4), (H5, 5), (H6, 6)}
  }

  /** The lines of a heading: those of its text, the first marked with as many hashes
      as its level; a heading without text leaves nothing. */
  function Marked(lines: seq<string>, k: nat): seq<string> {
    if lines == [] then [] else [Repeat('#', k) + lines[0]] + lines[1..]
  }

  lemma {:induction false} MarksJoin(k: nat, t: string)
    requires k > 0 && Joined(t, Line)
    ensures Pieces(Repeat('#', k) + t, Line) == Marked(Pieces(t, Line), k) && Joined(Repeat('#', k) + t, Line)
  {
    var p := Pieces(t, Line)[0];
    OneMark(k, t);
    OneMark(k, p);
    if k == 1 {
      assert Repeat('#', 0) + t == t && Repeat('#', 0) + p == p;
      PutPieces('#', t, Line);
    } else {
      MarksJoin(k - 1, t);
      PutPieces('#', Repeat('#', k - 1) + t, Line);
    }
  }

  lemma OneMark(k: nat, t: string)
    requires k > 0
    ensures Repeat('#', k) + t == ['#'] + (Repeat('#', k - 1) + t)
  {
  }

  lemma {:induction false} VisibleHasPieces(t: string, u: Unit)
    requires t != "" && !IsSpace(t[0])
    ensures Joined(t, u) && Pieces(t, u) != []
  {
  }

  /** A heading with text stands on lines of its own, marked with its level. One without
      leaves no trace, not even between the texts around it. */
  lemma HeadingStandsAlone(xs: seq<Node>, n: Node, ys: seq<Node>, k: nat)
    requires n.Element? && HasLevel(n.atom, k)
    ensures var lines := Pieces(RenderAll(n.children), Line);
            if lines == [] then RenderAll(xs + [n] + ys) == RenderAll(xs + ys)
            else Pieces(RenderAll(xs + [n] + ys), Line) ==
                   Pieces(RenderAll(xs), Line) + Marked(lines, k) + Pieces(RenderAll(ys), Line)
  {
    RenderAround(xs, n, ys);
    HeadingRendered(n, k);
    HeadingAtoms(n.atom, k);
    var text := TrimSpace(CollapseInline(RenderAll(n.children)));
    HeadingPieces(RenderAll(n.children));
    if text == "" {
      RenderAllAppend(xs, ys);
      assert RenderAll(xs) + "" == RenderAll(xs);
    } else {
      HeadingApart(RenderAll(xs), k, text, RenderAll(ys));
    }
  }

  lemma HeadingRendered(n: Node, k: nat)
    requires n.Element? && HasLevel(n.atom, k)
    ensures var text := TrimSpace(CollapseInline(RenderAll(n.children)));
            Render(n) == if text == "" then "" else HeadingText(k, text)
  {
    HeadingAtoms(n.atom, k);
    MarkRendered(n);
  }

  lemma HeadingAtoms(a: Atom, k: nat)
    requires HasLevel(a, k)
    ensures IsHeading(a) && HeadingLevel(a) == k > 0 && !IsDropped(a) && !a.Img? && !a.A?
  {
  }

  lemma MarkRendered(n: Node)
    requires n.Element? && IsHeading(n.atom) && !IsDropped(n.atom) && !n.atom.Img? && !n.atom.A?
    ensures Render(n) == HeadingBlock(HeadingLevel(n.atom), RenderAll(n.children))
  {
  }

  lemma HeadingPieces(inner: string)
    ensures var text := TrimSpace(CollapseInline(inner));
            && Pieces(text, Line) == Pieces(inner, Line) && (text == "" <==> Pieces(inner, Line) == [])
            && (text != "" ==> !IsSpace(text[0]))
  {
    CollapseAlike(inner, false, Line);
    TrimAlike(CollapseInline(inner), Line);
    var x, y := TrimSpaceShape(CollapseInline(inner));
    var text := TrimSpace(CollapseInline(inner));
    if text != "" { VisibleHasPieces(text, Line); }
  }

  lemma HeadingApart(a: string, k: nat, text: string, b: string)
    requires k > 0 && text != "" && !IsSpace(text[0])
    ensures Pieces(a + HeadingText(k, text) + b, Line) ==
              Pieces(a, Line) + Marked(Pieces(text, Line), k) + Pieces(b, Line)
  {
    var line := Repeat('#', k) + (" " + text);
    MarkedLine(k, text);
    HeadingRegrouped(a, k, text, b);
    EdgesApart(a + "\n", line, "\n" + b, Line);
    LoneBreaks(a, b);
  }

  lemma MarkedLine(k: nat, text: string)
    requires k > 0 && text != "" && !IsSpace(text[0])
    ensures Pieces(Repeat('#', k) + (" " + text), Line) == Marked(Pieces(text, Line), k)
  {
    PutPieces(' ', text, Line);
    VisibleHasPieces(text, Line);
    assert " " + text == [' '] + text;
    MarksJoin(k, " " + text);
  }

  lemma HeadingRegrouped(a: string, k: nat, text: string, b: string)
    ensures a + HeadingText(k, text) + b == (a + "\n") + ("\n" + (Repeat('#', k) + (" " + text)) + "\n") + ("\n" + b)
  {
  }

  lemma LoneBreaks(a: string, b: string)
    ensures Pieces(a + "\n", Line) == Pieces(a, Line) && Pieces("\n" + b, Line) == Pieces(b, Line)
  {
    InvisibleSuffix(a, "\n", Line);
    InvisiblePrefix("\n", b, Line);
  }

  // ---- nothing is added --------------------------------------------------

  /** A tree without headings and without titles on links. */
  predicate Unadorned(n: Node)
    decreases n, 0
  {
    n.Element? && !IsDropped(n.atom) ==>
      !IsHeading(n.atom) && (n.atom.A? ==> GetAttr(n.attrs, "title") == "")
      && (!n.atom.Img? ==> AllUnadorned(n.children))
  }

  predicate AllUnadorned(ns: seq<Node>)
    decreases ns, 1
  {
    ns != [] ==> Unadorned(ns[0]) && AllUnadorned(ns[1..])
  }

  /** Of such a tree the result shows exactly what a reader sees, in order. */
  lemma NothingIsAdded(doc: Node)
    requires Unadorned(doc)
    ensures NonSpace(HtmlText(doc)) == Visible(doc)
  {
    CleaningKeepsText(doc);
    RenderedIsVisible(doc);
  }

  lemma {:induction false} RenderedIsVisible(n: Node)
    requires Unadorned(n)
    ensures NonSpace(Render(n)) == Visible(n)
    decreases n, 0
  {
    if n.Element? && !IsDropped(n.atom) {
      if n.atom.Img? {
        NonSpaceAppend(GetAttr(n.attrs, "alt"), " ");
        NonSpaceOfSpace(" ");
      } else {
        AllRenderedVisible(n.children);
        var inner := RenderAll(n.children);
        assert inner + "" == inner;
        NonSpaceAppend("\n" + inner, "\n");
        NonSpaceAppend("\n", inner);
        NonSpaceOfSpace("\n");
      }
    }
  }

  lemma {:induction false} AllRenderedVisible(ns: seq<Node>)
    requires AllUnadorned(ns)
    ensures NonSpace(RenderAll(ns)) == VisibleAll(ns)
    decreases ns, 1
  {
    if ns != [] {
      RenderedIsVisible(ns[0]);
      AllRenderedVisible(ns[1..]);
      NonSpaceAppend(Render(ns[0]), RenderAll(ns[1..]));
    }
  }
}
