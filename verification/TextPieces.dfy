/** Texts by their words and by their lines of visible characters. The normalisers
    change white space only, and they never run two words, or two lines, together. */
module TextPieces {
  import opened Normalisers
  import opened Text

  /** What pieces of text end at: any white space, or a line break. */
  datatype Unit = Word | Line

  predicate Ends(u: Unit, c: char) {
    if u.Word? then IsSpace(c) else c == '\n' || c == '\r'
  }

  /** The text's next visible character comes before anything that ends a piece. */
  predicate Joined(s: string, u: Unit) {
    s != "" && !Ends(u, s[0]) && (!IsSpace(s[0]) || Joined(s[1..], u))
  }

  /** The visible characters between one end and the next, for every such stretch that
      has any: the words of a text, or its lines without their blanks. */
  function Pieces(s: string, u: Unit): (ps: seq<string>)
    ensures Joined(s, u) ==> ps != []
  {
    if s == "" then []
    else if IsSpace(s[0]) then Pieces(s[1..], u)
    else if Joined(s[1..], u) then
      var ps := Pieces(s[1..], u);
      [[s[0]] + ps[0]] + ps[1..]
    else [[s[0]]] + Pieces(s[1..], u)
  }

  /** Two texts that look the same and may both follow the same character. */
  predicate Alike(s: string, t: string, u: Unit) {
    Pieces(s, u) == Pieces(t, u) && (Joined(s, u) <==> Joined(t, u))
  }

  lemma ConsAlike(x: char, s: string, t: string, u: Unit)
    requires Alike(s, t, u)
    ensures Alike([x] + s, [x] + t, u)
  {
    assert ([x] + s)[1..] == s && ([x] + t)[1..] == t;
  }

  lemma {:induction false} PrefixAlike(a: string, s: string, t: string, u: Unit)
    requires Alike(s, t, u)
    ensures Alike(a + s, a + t, u)
  {
    if a == "" {
      assert a + s == s && a + t == t;
    } else {
      PrefixAlike(a[1..], s, t, u);
      ConsAlike(a[0], a[1..] + s, a[1..] + t, u);
      assert a + s == [a[0]] + (a[1..] + s) && a + t == [a[0]] + (a[1..] + t);
    }
  }

  predicate Invisible(s: string) {
    forall c :: c in s ==> IsSpace(c)
  }

  /** White space in front shows only in where it ends a piece. */
  lemma {:induction false} InvisiblePrefix(a: string, t: string, u: Unit)
    requires Invisible(a)
    ensures Pieces(a + t, u) == Pieces(t, u)
    ensures (exists c :: c in a && Ends(u, c)) ==> !Joined(a + t, u)
  {
    if a == "" {
      assert a + t == t;
    } else {
      InvisiblePrefix(a[1..], t, u);
      assert (a + t)[1..] == a[1..] + t && a == [a[0]] + a[1..];
      assert a[0] in a;
    }
  }

  /** White space at the end does not show. */
  lemma {:induction false} InvisibleSuffix(t: string, b: string, u: Unit)
    requires Invisible(b)
    ensures Pieces(t + b, u) == Pieces(t, u) && (Joined(t + b, u) <==> Joined(t, u))
  {
    if t == "" {
      assert t + b == b + "" == b;
      InvisiblePrefix(b, "", u);
      InvisibleNeverJoins(b, u);
    } else {
      InvisibleSuffix(t[1..], b, u);
      ConsAlike(t[0], t[1..] + b, t[1..], u);
      assert t + b == [t[0]] + (t[1..] + b) && t == [t[0]] + t[1..];
    }
  }

  lemma {:induction false} InvisibleNeverJoins(b: string, u: Unit)
    requires Invisible(b)
    ensures !Joined(b, u)
  {
    if b != "" {
      assert b[0] in b;
      InvisibleNeverJoins(b[1..], u);
    }
  }

  /** An end between two texts separates their pieces. */
  lemma {:induction false} PiecesApart(a: string, c: char, b: string, u: Unit)
    requires Ends(u, c)
    ensures Pieces(a + [c] + b, u) == Pieces(a, u) + Pieces(b, u)
    ensures Joined(a + [c] + b, u) <==> Joined(a, u)
  {
    assert IsSpace(c);
    if a == "" {
      assert a + [c] + b == [c] + b && ([c] + b)[1..] == b;
    } else {
      PiecesApart(a[1..], c, b, u);
      PutPieces(a[0], a[1..] + [c] + b, u);
      PutPieces(a[0], a[1..], u);
      PutAppend(a[0], Pieces(a[1..], u), Pieces(b, u), Joined(a[1..], u));
      assert a + [c] + b == [a[0]] + (a[1..] + [c] + b) && a == [a[0]] + a[1..];
    }
  }

  /** One more character in front. */
  function Put(x: char, ps: seq<string>, joined: bool): seq<string>
    requires joined ==> ps != []
  {
    if IsSpace(x) then ps
    else if joined then [[x] + ps[0]] + ps[1..]
    else [[x]] + ps
  }

  lemma PutPieces(x: char, t: string, u: Unit)
    ensures Pieces([x] + t, u) == Put(x, Pieces(t, u), Joined(t, u))
    ensures Joined([x] + t, u) <==> !Ends(u, x) && (!IsSpace(x) || Joined(t, u))
  {
    assert ([x] + t)[1..] == t;
  }

  lemma PutAppend(x: char, ps: seq<string>, qs: seq<string>, joined: bool)
    requires joined ==> ps != []
    ensures Put(x, ps + qs, joined) == Put(x, ps, joined) + qs
  {
    if joined { assert (ps + qs)[1..] == ps[1..] + qs; }
  }

  lemma PiecesApartBy(a: string, w: string, b: string, u: Unit)
    requires Invisible(w) && w != "" && Ends(u, w[0])
    ensures Pieces(a + w + b, u) == Pieces(a, u) + Pieces(b, u)
  {
    var c, v := w[0], w[1..];
    InvisiblePrefix(v, b, u);
    PiecesApart(a, c, v + b, u);
    Regroup(a, c, v, b);
    assert w == [c] + v;
  }

  lemma Regroup(a: string, c: char, v: string, b: string)
    ensures a + ([c] + v) + b == a + [c] + (v + b)
  {
  }

  /** The words are what `strings.Fields` yields. */
  lemma {:induction false} PiecesAreFields(s: string)
    ensures Pieces(s, Word) == Fields(s)
    decreases |s|
  {
    if s == "" {
    } else if IsSpace(s[0]) {
      PiecesAreFields(s[1..]);
    } else {
      var w := FirstWord(s, IsSpace);
      var rest := s[|w|..];
      assert s == w + rest;
      PiecesAreFields(rest);
      assert |w| < |s| ==> rest[0] == s[|w|];
      WordThenRest(w, rest);
    }
  }

  lemma {:induction false} WordThenRest(w: string, rest: string)
    requires w != "" && (forall c :: c in w ==> !IsSpace(c)) && (rest != "" ==> IsSpace(rest[0]))
    ensures Pieces(w + rest, Word) == [w] + Pieces(rest, Word)
  {
    assert (w + rest)[1..] == w[1..] + rest && w[0] in w;
    if |w| == 1 {
      assert w[1..] + rest == rest && w == [w[0]];
    } else {
      WordThenRest(w[1..], rest);
      assert w[1..][0] in w;
      assert w == [w[0]] + w[1..];
    }
  }

  /** A text without line breaks is one line, if it shows anything. */
  lemma {:induction false} OneLine(s: string)
    requires '\n' !in s && '\r' !in s
    ensures Pieces(s, Line) == (if NonSpace(s) == "" then [] else [NonSpace(s)])
    ensures Joined(s, Line) <==> NonSpace(s) != ""
  {
    if s != "" {
      OneLine(s[1..]);
      PutPieces(s[0], s[1..], Line);
      assert s == [s[0]] + s[1..] && s[0] in s;
      if IsSpace(s[0]) {
        assert "" + NonSpace(s[1..]) == NonSpace(s[1..]);
      } else if NonSpace(s[1..]) == "" {
        assert [s[0]] + "" == [s[0]] && [[s[0]]] + [] == [[s[0]]];
      } else {
        assert [NonSpace(s[1..])][1..] == [];
      }
    }
  }

  // ---- the passes --------------------------------------------------------

  /** Replacing one stretch of white space by another that ends pieces as well. */
  lemma {:induction false} ReplaceAlike(s: string, p: string, q: string, u: Unit)
    requires p != "" && Invisible(p) && Invisible(q)
    requires (exists c :: c in p && Ends(u, c)) && (exists c :: c in q && Ends(u, c))
    ensures Alike(ReplaceAll(s, p, q), s, u)
    decreases |s|
  {
    if s == "" {
    } else if p <= s {
      var t := s[|p|..];
      ReplaceAlike(t, p, q, u);
      InvisiblePrefix(p, t, u);
      InvisiblePrefix(q, ReplaceAll(t, p, q), u);
      assert s == p + t;
    } else {
      ReplaceAlike(s[1..], p, q, u);
      ConsAlike(s[0], ReplaceAll(s[1..], p, q), s[1..], u);
      assert s == [s[0]] + s[1..];
    }
  }

  lemma UnixLinesAlike(s: string, u: Unit)
    ensures Alike(UnixLines(s), s, u)
  {
    assert '\n' in "\r\n" && '\n' in "\n" && '\r' in "\r";
    assert IsSpace('\n') && IsSpace('\r');
    ReplaceAlike(s, "\r\n", "\n", u);
    ReplaceAlike(ReplaceAll(s, "\r\n", "\n"), "\r", "\n", u);
  }

  /** Capping a run drops white space that other white space stands before. */
  lemma {:induction false} CapAlike(s: string, c: char, k: nat, run: nat, u: Unit)
    requires IsSpace(c) && k > 0
    ensures Pieces(CapFrom(s, c, k, run), u) == Pieces(s, u)
    ensures run < k || !Ends(u, c) ==> (Joined(CapFrom(s, c, k, run), u) <==> Joined(s, u))
  {
    if s != "" {
      var next := if s[0] != c then 0 else if run < k then run + 1 else run;
      var t := CapFrom(s[1..], c, k, next);
      CapAlike(s[1..], c, k, next, u);
      assert ([s[0]] + t)[1..] == t;
    }
  }

  lemma TrimAlike(s: string, u: Unit)
    ensures Pieces(TrimSpace(s), u) == Pieces(s, u)
  {
    var a, b := TrimSpaceShape(s);
    MiddlePieces(a, TrimSpace(s), b, u);
  }

  lemma MiddlePieces(a: string, m: string, b: string, u: Unit)
    requires Invisible(a) && Invisible(b)
    ensures Pieces(a + m + b, u) == Pieces(m, u)
  {
    InvisiblePrefix(a, m + b, u);
    InvisibleSuffix(m, b, u);
    assert a + m + b == a + (m + b);
  }

  // ---- the normalisers ---------------------------------------------------

  /** Markdown clean-up keeps every word and every line, in order and apart. */
  lemma MarkdownKeepsPieces(s: string, u: Unit)
    ensures Pieces(MarkdownText(s), u) == Pieces(s, u)
  {
    UnixLinesAlike(s, u);
    CapAlike(UnixLines(s), '\n', 2, 0, u);
    TrimAlike(CapRuns(UnixLines(s), '\n', 2), u);
  }

  /** So does the PDF clean-up. */
  lemma PdfKeepsPieces(s: string, u: Unit)
    ensures Pieces(PdfText(s), u) == Pieces(s, u)
  {
    var t := UnixLines(s);
    UnixLinesAlike(s, u);
    CapAlike(t, ' ', 1, 0, u);
    CapAlike(CapRuns(t, ' ', 1), '\n', 2, 0, u);
    TrimAlike(CapRuns(CapRuns(t, ' ', 1), '\n', 2), u);
  }

  /** And the GitHub clean-up, apart from the comments it removes and the checkboxes
      it lowers. */
  lemma GitHubKeepsPieces(s: string, u: Unit)
    ensures Pieces(GitHubText(s), u) == Pieces(Checkboxes(WithoutComments(UnixLines(s))), u)
  {
    var t := Checkboxes(WithoutComments(UnixLines(s)));
    CapAlike(t, '\n', 2, 0, u);
    TrimAlike(CapRuns(t, '\n', 2), u);
  }

  /** Between two clean texts a gap of blank lines shrinks to one, and nothing else
      happens. */
  lemma MarkdownShrinksGaps(a: string, n: nat, b: string)
    requires CleanMarkdown(a) && CleanMarkdown(b) && a != "" && b != ""
    ensures MarkdownText(a + Repeat('\n', n) + b) == a + Repeat('\n', Min(n, 2)) + b
  {
    NoReturn(a, n, b);
    MarkdownOfUnix(a + Repeat('\n', n) + b);
    CappedNewlines(a);
    CappedNewlines(b);
    CapGap(a, n, b);
    TrimmedAround(a, Repeat('\n', Min(n, 2)), b);
  }

  lemma NoReturn(a: string, n: nat, b: string)
    requires '\r' !in a && '\r' !in b
    ensures '\r' !in a + Repeat('\n', n) + b
  {
  }

  lemma MarkdownOfUnix(s: string)
    requires '\r' !in s
    ensures MarkdownText(s) == TrimSpace(CapRuns(s, '\n', 2))
  {
    UnixLinesClean(s);
  }

  lemma CapGap(a: string, n: nat, b: string)
    requires Trimmed(a) && Trimmed(b) && Capped(a, '\n', 2, 0) && Capped(b, '\n', 2, 0) && a != "" && b != ""
    ensures CapRuns(a + Repeat('\n', n) + b, '\n', 2) == a + Repeat('\n', Min(n, 2)) + b
  {
    assert IsSpace('\n');
    CapMaximalRun(a, n, b, '\n', 2);
    CapIsCapped(a, '\n', 2, 0);
    CapIsCapped(b, '\n', 2, 0);
  }

  lemma TrimmedAround(a: string, w: string, b: string)
    requires Trimmed(a) && Trimmed(b) && a != "" && b != ""
    ensures TrimSpace(a + w + b) == a + w + b
  {
    var t := a + w + b;
    assert t[0] == a[0] && t[|t| - 1] == b[|b| - 1];
    var x, y := TrimSpaceShape(t);
  }

  /** In a PDF a gap of spaces shrinks to one. */
  lemma PdfShrinksGaps(a: string, n: nat, b: string)
    requires CleanPdf(a) && CleanPdf(b) && a != "" && b != ""
    ensures PdfText(a + Repeat(' ', n) + b) == a + Repeat(' ', Min(n, 1)) + b
  {
    var s, t := a + Repeat(' ', n) + b, a + Repeat(' ', Min(n, 1)) + b;
    UnixLinesClean(s);
    assert IsSpace(' ') && IsSpace('\n');
    CapMaximalRun(a, n, b, ' ', 1);
    CappedSpaces(a);
    CappedSpaces(b);
    CappedNewlines(a);
    CappedNewlines(b);
    CapIsCapped(a, ' ', 1, 0);
    CapIsCapped(b, ' ', 1, 0);
    NoLongGap(a, Repeat(' ', Min(n, 1)), b);
    CapIsCapped(t, '\n', 2, 0);
    TrimmedAround(a, Repeat(' ', Min(n, 1)), b);
  }

  /** Joining texts without long gaps by text without line feeds makes none. */
  lemma NoLongGap(a: string, w: string, b: string)
    requires Capped(a, '\n', 2, 0) && Capped(b, '\n', 2, 0) && (forall i :: 0 <= i < |w| ==> w[i] != '\n')
    requires a != "" && a[|a| - 1] != '\n'
    ensures Capped(a + w + b, '\n', 2, 0)
  {
    CapIsCapped(a, '\n', 2, 0);
    CapIsCapped(b, '\n', 2, 0);
    var v := a + w;
    assert v[|v| - 1] != '\n' by { if w != "" { assert v[|v| - 1] == w[|w| - 1]; } }
    CapSplit(v, b, '\n', 2, 0);
    if w != "" {
      CapSplit(a, w, '\n', 2, 0);
      NoLineFeeds(w);
    } else {
      assert v == a;
    }
    CapIsCapped(v + b, '\n', 2, 0);
  }

  lemma {:induction false} NoLineFeeds(w: string)
    requires forall i :: 0 <= i < |w| ==> w[i] != '\n'
    ensures CapFrom(w, '\n', 2, 0) == w
  {
    if w != "" { NoLineFeeds(w[1..]); }
  }
}
