/** The PDF normaliser, from the extracted pages on: pages are joined under page
    headings, and no page text is lost by joining and cleaning. */
module Pdf {
  import opened Text
  import opened TextPieces
  import opened Normalisers
  import opened Wrappers

  datatype Page = Page(number: int, content: string)

  function Decimal(n: nat): string {
    if n < 10 then [('0' as int + n) as char] else Decimal(n / 10) + [('0' as int + n % 10) as char]
  }

  /** The number printed for a page: poppler's, or the position when it has none. */
  function PageNumber(p: Page, i: nat): nat {
    if p.number <= 0 then i + 1 else p.number
  }

  function PageHeading(p: Page, i: nat): string {
    "## Page " + Decimal(PageNumber(p, i)) + "\n\n"
  }

  function PageText(p: Page, i: nat): string {
    PageHeading(p, i) + TrimSpace(p.content)
  }

  /** The pages from index `i` on, given whether something is written already. */
  function AssembledFrom(pages: seq<Page>, i: nat, started: bool): string
    requires i <= |pages|
    decreases |pages| - i
  {
    if i == |pages| then ""
    else if TrimSpace(pages[i].content) == "" then AssembledFrom(pages, i + 1, started)
    else (if started then "\n\n" else "") + PageText(pages[i], i) + AssembledFrom(pages, i + 1, true)
  }

  /** assemblePages, with its growing builder. */
  method AssemblePages(pages: seq<Page>) returns (b: string)
    ensures b == AssembledFrom(pages, 0, false)
  {
    b := "";
    for i := 0 to |pages|
      invariant b + AssembledFrom(pages, i, b != "") == AssembledFrom(pages, 0, false)
    {
      PageAssembled(b, pages, i);
      if TrimSpace(pages[i].content) != "" {
        b := WritePage(b, pages[i], i);
      }
    }
  }

  function Extended(builder: string, page: Page, i: nat): (b: string)
    ensures b != ""
  {
    (if builder == "" then "" else builder + "\n\n") + PageText(page, i)
  }

  lemma PageAssembled(b: string, pages: seq<Page>, i: nat)
    requires i < |pages|
    ensures b + AssembledFrom(pages, i, b != "") ==
            if TrimSpace(pages[i].content) == "" then b + AssembledFrom(pages, i + 1, b != "")
            else Extended(b, pages[i], i) + AssembledFrom(pages, i + 1, true)
  {
    if TrimSpace(pages[i].content) != "" {
      PageWritten(b, Extended(b, pages[i], i), PageText(pages[i], i), AssembledFrom(pages, i + 1, true));
    }
  }

  /** The loop's writes for a page that is not blank. */
  method WritePage(builder: string, page: Page, i: nat) returns (b: string)
    ensures b == Extended(builder, page, i)
  {
    b := builder;
    if |b| > 0 {
      b := b + "\n\n";
    }
    var num := page.number;
    if num <= 0 {
      num := i + 1;
    }
    b := b + ("## Page " + Decimal(num) + "\n\n" + TrimSpace(page.content));
  }

  lemma PageWritten(before: string, b: string, part: string, rest: string)
    requires part != "" && b == (if before == "" then "" else before + "\n\n") + part
    ensures b + rest == before + ((if before != "" then "\n\n" else "") + part + rest)
  {
    if before == "" {
      assert "" + part == part && "" + ("" + part + rest) == part + rest;
    } else {
      assert before + "\n\n" + part + rest == before + ("\n\n" + part + rest);
    }
  }

  /** PDFNormaliser.Normalise over the external text extraction. */
  method NormalisePDF(content: string, extract: string -> Option<seq<Page>>) returns (text: string)
    ensures text == if content == "" || extract(content).None? then ""
                    else PdfText(AssembledFrom(extract(content).value, 0, false))
  {
    if content == "" {
      return "";
    }
    var pages := extract(content);
    if pages.None? {
      return "";
    }
    if |pages.value| == 0 {
      assert PdfText("") == "";
      return "";
    }
    var assembled := AssemblePages(pages.value);
    text := NormalisePdfText(assembled);
  }

  /** The non-space characters of all pages, in order. */
  function Written(pages: seq<Page>, i: nat): string
    requires i <= |pages|
    decreases |pages| - i
  {
    if i == |pages| then "" else NonSpace(pages[i].content) + Written(pages, i + 1)
  }

  lemma {:induction false} AssemblyKeepsPages(pages: seq<Page>, i: nat, started: bool)
    requires i <= |pages|
    ensures Subsequence(Written(pages, i), NonSpace(AssembledFrom(pages, i, started)))
    decreases |pages| - i
  {
    if i < |pages| {
      var body := TrimSpace(pages[i].content);
      TrimKeeps(pages[i].content);
      if body == "" {
        AssemblyKeepsPages(pages, i + 1, started);
        assert Written(pages, i) == "" + Written(pages, i + 1) == Written(pages, i + 1);
      } else {
        AssemblyKeepsPages(pages, i + 1, true);
        var sep := if started then "\n\n" else "";
        PageKeeps(sep, pages[i], i, AssembledFrom(pages, i + 1, true), Written(pages, i + 1));
      }
    }
  }

  lemma PageKeeps(sep: string, page: Page, i: nat, rest: string, v: string)
    requires Subsequence(v, NonSpace(rest))
    ensures Subsequence(NonSpace(page.content) + v, NonSpace(sep + PageText(page, i) + rest))
  {
    TrimKeeps(page.content);
    var head := PageHeading(page, i);
    Regroup(sep, head, TrimSpace(page.content), rest);
    HeadedKeeps(sep + head, TrimSpace(page.content), rest, v);
  }

  lemma Regroup(a: string, b: string, c: string, d: string)
    ensures a + (b + c) + d == (a + b) + c + d
  {
  }

  lemma HeadedKeeps(head: string, body: string, rest: string, v: string)
    requires Subsequence(v, NonSpace(rest))
    ensures Subsequence(NonSpace(body) + v, NonSpace(head + body + rest))
  {
    NonSpaceAppend(head + body, rest);
    NonSpaceAppend(head, body);
    Surrounded(NonSpace(body), NonSpace(head), NonSpace(body), "");
    assert NonSpace(head) + NonSpace(body) + "" == NonSpace(head) + NonSpace(body);
    SubsequenceConcat(NonSpace(body), NonSpace(head) + NonSpace(body), v, NonSpace(rest));
  }

  /** The text of every page is in the result, in page order, and the result is tidy. */
  lemma PdfOutput(pages: seq<Page>)
    ensures Subsequence(Written(pages, 0), NonSpace(PdfText(AssembledFrom(pages, 0, false))))
    ensures CleanPdf(PdfText(AssembledFrom(pages, 0, false)))
  {
    AssemblyKeepsPages(pages, 0, false);
    CleaningLosesNoText(AssembledFrom(pages, 0, false));
    PdfTextIsClean(AssembledFrom(pages, 0, false));
  }

  // ---- lines and page numbers --------------------------------------------

  /** The number a string of decimal digits stands for. */
  function ValueOf(digits: string): nat
    requires forall i :: 0 <= i < |digits| ==> '0' <= digits[i] <= '9'
  {
    if digits == "" then 0
    else 10 * ValueOf(digits[..|digits| - 1]) + (digits[|digits| - 1] as int - '0' as int)
  }

  /** A number is printed in decimal, without leading zeros. */
  lemma {:induction false} DecimalMeans(n: nat)
    ensures forall i :: 0 <= i < |Decimal(n)| ==> '0' <= Decimal(n)[i] <= '9'
    ensures ValueOf(Decimal(n)) == n && Decimal(n) != "" && (Decimal(n)[0] == '0' <==> n == 0)
  {
    if n >= 10 {
      DecimalMeans(n / 10);
      assert Decimal(n)[..|Decimal(n)| - 1] == Decimal(n / 10);
    } else {
      assert Decimal(n)[..0] == "";
    }
  }

  /** The lines of a document: for each page that is not blank its heading, with the
      number found for it or else its position, and then its own lines. */
  function PageLines(pages: seq<Page>, i: nat): seq<string>
    requires i <= |pages|
    decreases |pages| - i
  {
    if i == |pages| then []
    else if Pieces(pages[i].content, Line) == [] then PageLines(pages, i + 1)
    else
      var number := if pages[i].number >= 1 then pages[i].number else i + 1;
      ["##Page" + Decimal(number)] + Pieces(pages[i].content, Line) + PageLines(pages, i + 1)
  }

  lemma BlankPage(content: string)
    ensures TrimSpace(content) == "" <==> Pieces(content, Line) == []
  {
    TrimAlike(content, Line);
    var a, b := TrimSpaceShape(content);
    var t := TrimSpace(content);
    if t != "" { assert Pieces(t, Line) != []; }
  }

  /** What the assembled pages say, line by line. */
  lemma {:induction false} AssembledLines(pages: seq<Page>, i: nat, started: bool)
    requires i <= |pages|
    ensures Pieces(AssembledFrom(pages, i, started), Line) == PageLines(pages, i)
    decreases |pages| - i
  {
    if i < |pages| {
      BlankPage(pages[i].content);
      if TrimSpace(pages[i].content) == "" {
        AssembledLines(pages, i + 1, started);
      } else {
        AssembledLines(pages, i + 1, true);
        LaterPages(pages, i + 1);
        PageTextLines(pages[i], i, AssembledFrom(pages, i + 1, true));
        Separated(if started then "\n\n" else "", PageText(pages[i], i), AssembledFrom(pages, i + 1, true));
      }
    }
  }

  lemma Separated(sep: string, text: string, rest: string)
    requires sep == "" || sep == "\n\n"
    ensures Pieces(sep + text + rest, Line) == Pieces(text + rest, Line)
  {
    InvisiblePrefix(sep, text + rest, Line);
    assert sep + text + rest == sep + (text + rest);
  }

  /** What follows a written page starts on a new line. */
  lemma {:induction false} LaterPages(pages: seq<Page>, i: nat)
    requires i <= |pages|
    ensures var t := AssembledFrom(pages, i, true);
            t == "" || t[0] == '\n'
    decreases |pages| - i
  {
    if i < |pages| {
      if TrimSpace(pages[i].content) == "" {
        LaterPages(pages, i + 1);
      } else {
        StartsWithBreak(PageText(pages[i], i), AssembledFrom(pages, i + 1, true));
      }
    }
  }

  lemma StartsWithBreak(x: string, y: string)
    ensures ("\n\n" + x + y)[0] == '\n'
  {
  }

  lemma PageTextLines(page: Page, i: nat, rest: string)
    requires TrimSpace(page.content) != "" && (rest == "" || rest[0] == '\n')
    ensures Pieces(PageText(page, i) + rest, Line) ==
              ["##Page" + Decimal(PageNumber(page, i))] + Pieces(page.content, Line) + Pieces(rest, Line)
  {
    var head, body := "## Page " + Decimal(PageNumber(page, i)), TrimSpace(page.content);
    TrimAlike(page.content, Line);
    HeadLine(PageNumber(page, i));
    BreaksApart(head, body + rest);
    PageRegrouped(page, i, rest);
    BodyThenRest(body, rest);
    Assoc(["##Page" + Decimal(PageNumber(page, i))], Pieces(body, Line), Pieces(rest, Line));
  }

  lemma Assoc(a: seq<string>, b: seq<string>, c: seq<string>)
    ensures a + (b + c) == a + b + c
  {
  }

  lemma BreaksApart(a: string, b: string)
    ensures Pieces(a + "\n\n" + b, Line) == Pieces(a, Line) + Pieces(b, Line)
  {
    PiecesApartBy(a, "\n\n", b, Line);
  }

  lemma PageRegrouped(page: Page, i: nat, rest: string)
    ensures PageText(page, i) + rest ==
              ("## Page " + Decimal(PageNumber(page, i))) + "\n\n" + (TrimSpace(page.content) + rest)
  {
  }

  lemma BodyThenRest(body: string, rest: string)
    requires rest == "" || rest[0] == '\n'
    ensures Pieces(body + rest, Line) == Pieces(body, Line) + Pieces(rest, Line)
  {
    if rest == "" {
      assert body + rest == body;
    } else {
      PiecesApart(body, '\n', rest[1..], Line);
      InvisiblePrefix("\n", rest[1..], Line);
      assert body + rest == body + ['\n'] + rest[1..] && rest == "\n" + rest[1..];
    }
  }

  lemma HeadLine(n: nat)
    ensures Pieces("## Page " + Decimal(n), Line) == ["##Page" + Decimal(n)]
  {
    var d := Decimal(n);
    DecimalMeans(n);
    Digits(d);
    NonSpaceAppend("## Page ", d);
    HeadMarks();
    NoBreaks(d);
    OneLine("## Page " + d);
  }

  lemma NoBreaks(d: string)
    requires '\n' !in d && '\r' !in d
    ensures '\n' !in "## Page " + d && '\r' !in "## Page " + d && "##Page" + d != ""
  {
  }

  lemma HeadMarks()
    ensures NonSpace("## Page ") == "##Page"
  {
    TwoMarks("##", "Page");
    assert ("##" + " ") + ("Page" + " ") == "## Page " && "##" + "Page" == "##Page";
  }

  lemma TwoMarks(a: string, b: string)
    requires (forall i :: 0 <= i < |a| ==> !IsSpace(a[i])) && forall i :: 0 <= i < |b| ==> !IsSpace(b[i])
    ensures NonSpace((a + " ") + (b + " ")) == a + b
  {
    SpaceAfter(a);
    SpaceAfter(b);
    NonSpaceAppend(a + " ", b + " ");
  }

  lemma SpaceAfter(a: string)
    requires forall i :: 0 <= i < |a| ==> !IsSpace(a[i])
    ensures NonSpace(a + " ") == a
  {
    Shown(a);
    NonSpaceAppend(a, " ");
    NonSpaceOfSpace(" ");
    assert a + "" == a;
  }

  lemma {:induction false} Shown(s: string)
    requires forall i :: 0 <= i < |s| ==> !IsSpace(s[i])
    ensures NonSpace(s) == s
  {
    if s != "" { Shown(s[1..]); }
  }

  lemma Digits(d: string)
    requires forall i :: 0 <= i < |d| ==> '0' <= d[i] <= '9'
    ensures NonSpace(d) == d && '\n' !in d && '\r' !in d
  {
    Shown(d);
  }

  /** The result says, line by line, what the pages say under their headings, and no
      more. */
  lemma PdfSaysWhatPagesSay(pages: seq<Page>)
    ensures Pieces(PdfText(AssembledFrom(pages, 0, false)), Line) == PageLines(pages, 0)
  {
    AssembledLines(pages, 0, false);
    PdfKeepsPieces(AssembledFrom(pages, 0, false), Line);
  }
}
