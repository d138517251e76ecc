/** What the GitHub normaliser leaves of an issue: everything outside its comments. */
module IssueText {
  import opened Normalisers
  import opened Text
  import opened TextPieces

  /** `p` stands in `s` at `j`. */
  predicate StandsAt(s: string, p: string, j: int) {
    0 <= j && j + |p| <= |s| && s[j..j + |p|] == p
  }

  lemma StandsInTail(s: string, p: string, j: nat)
    requires s != ""
    ensures StandsAt(s[1..], p, j) <==> StandsAt(s, p, j + 1)
  {
    if j + 1 + |p| <= |s| { assert s[1..][j..j + |p|] == s[j + 1..j + 1 + |p|]; }
  }

  /** Index is the first place where the pattern stands. */
  lemma {:induction false} IndexIsFirst(s: string, p: string, n: nat)
    requires StandsAt(s, p, n) && forall j :: 0 <= j < n ==> !StandsAt(s, p, j)
    ensures Index(s, p) == n
    decreases n
  {
    if n == 0 {
      assert p <= s;
    } else {
      assert !StandsAt(s, p, 0);
      StandsInTail(s, p, n - 1);
      forall j | 0 <= j < n - 1 ensures !StandsAt(s[1..], p, j) {
        StandsInTail(s, p, j);
        assert !StandsAt(s, p, j + 1);
      }
      IndexIsFirst(s[1..], p, n - 1);
      IndexStep(s, p);
    }
  }

  lemma IndexStep(s: string, p: string)
    requires s != "" && !StandsAt(s, p, 0) && Index(s[1..], p) >= 0
    ensures Index(s, p) == Index(s[1..], p) + 1
  {
  }

  lemma StandsNowhere(t: string, p: string, j: int)
    requires !Contains(t, p)
    ensures !StandsAt(t, p, j)
  {
    ContainsStanding(t, p, j);
  }

  lemma ContainsStanding(t: string, p: string, j: int)
    ensures StandsAt(t, p, j) ==> Contains(t, p)
  {
    ContainsAt(t, p);
    if StandsAt(t, p, j) { assert p <= t[j..]; }
  }

  /** The first occurrence of `p` is at `n`, if it stands there and none ends before. */
  lemma FirstAt(s: string, n: nat, p: string, before: string)
    requires p != "" && StandsAt(s, p, n) && before == s[..n + |p| - 1] && !Contains(before, p)
    ensures Index(s, p) == n
  {
    forall j | 0 <= j < n ensures !StandsAt(s, p, j) {
      StandsNowhere(before, p, j);
      assert before[j..j + |p|] == s[j..j + |p|];
    }
    IndexIsFirst(s, p, n);
  }

  /** From an opener to the first closer after it. */
  lemma FirstPiece(s: string, a: string, o: string, m: string, c: string, b: string)
    requires o != "" && !Contains(a + o[..|o| - 1], o) && c != "" && !Contains(o + m + c[..|c| - 1], c)
    requires s == a + (o + m + c) + b
    ensures Index(s, o) == |a| && Index(s[|a|..], c) == |o| + |m|
  {
    Opened(s, a, o, m, c, b);
    FirstAt(s, |a|, o, a + o[..|o| - 1]);
    FirstAt(s[|a|..], |o| + |m|, c, o + m + c[..|c| - 1]);
  }

  lemma Opened(s: string, a: string, o: string, m: string, c: string, b: string)
    requires s == a + (o + m + c) + b && o != "" && c != ""
    ensures StandsAt(s, o, |a|) && s[..|a| + |o| - 1] == a + o[..|o| - 1]
    ensures StandsAt(s[|a|..], c, |o| + |m|) && s[|a|..][..|o| + |m| + |c| - 1] == o + m + c[..|c| - 1]
  {
    var w := s[|a|..];
    assert s == a + o + (m + c + b);
    assert w == (o + m) + c + b;
    Standing(s, a, o, m + c + b);
    Standing(w, o + m, c, b);
  }

  lemma Standing(s: string, x: string, p: string, y: string)
    requires s == x + p + y && p != ""
    ensures StandsAt(s, p, |x|) && s[..|x| + |p| - 1] == x + p[..|p| - 1]
  {
  }

  /** A comment is cut out whole, and what stands before and after it moves together. */
  lemma CommentCutOut(a: string, m: string, b: string)
    requires !Contains(a + "<!-", OPEN) && !Contains(OPEN + m + "--", CLOSE)
    ensures WithoutComments(a + OPEN + m + CLOSE + b) == WithoutComments(a + b)
  {
    var piece := OPEN + m + CLOSE;
    var s := a + piece + b;
    Halves();
    FirstPiece(s, a, OPEN, m, CLOSE, b);
    EndIs(s, |a|, |OPEN| + |m|);
    OneCut(s, |a|, |a| + |piece|);
    Around(s, a, piece, b);
    Regrouped(a, OPEN, m, CLOSE, b);
  }

  lemma Around(s: string, a: string, piece: string, b: string)
    requires s == a + piece + b
    ensures s[..|a|] == a && s[|a| + |piece|..] == b
  {
  }

  lemma Regrouped(a: string, o: string, m: string, c: string, b: string)
    ensures a + o + m + c + b == a + (o + m + c) + b
  {
  }

  lemma Halves()
    ensures OPEN[..|OPEN| - 1] == "<!-" && CLOSE[..|CLOSE| - 1] == "--" && |OPEN| == 4 && |CLOSE| == 3
  {
  }

  lemma EndIs(s: string, from: nat, n: nat)
    requires Index(s, OPEN) == from && from <= |s| && Index(s[from..], CLOSE) == n
    ensures Cuttable(s) && CommentEnd(s) == from + n + 3
  {
  }

  lemma OneCut(s: string, from: nat, to: nat)
    requires Cuttable(s) && from == Index(s, OPEN) && to == CommentEnd(s)
    ensures to <= |s| && from <= |s| && WithoutComments(s) == WithoutComments(s[..from] + s[to..])
  {
    WithoutMore(s);
    assert CutFirst(s) == s[..from] + s[to..];
  }

  /** What is left of an issue are the pieces of its text without comments, with the
      boxes that had a capital X lowered. */
  lemma IssueKeepsText(s: string)
    ensures NonSpace(GitHubText(s)) == NonSpace(Checkboxes(WithoutComments(UnixLines(s))))
  {
    var t := Checkboxes(WithoutComments(UnixLines(s)));
    CapKeeps(t, '\n', 2, 0);
    TrimKeeps(CapRuns(t, '\n', 2));
  }

  // ---- line breaks do not matter to comments and boxes -------------------

  lemma ReplaceHit(s: string, p: string, q: string)
    requires p != "" && p <= s
    ensures ReplaceAll(s, p, q) == q + ReplaceAll(s[|p|..], p, q)
  {
    if s == "" { assert false; }
  }

  lemma ReplaceMiss(s: string, p: string, q: string)
    requires p != "" && s != "" && !(p <= s)
    ensures ReplaceAll(s, p, q) == [s[0]] + ReplaceAll(s[1..], p, q)
  {
  }

  /** A pattern of two characters is replaced piece by piece, unless the cut splits it. */
  lemma {:induction false} PairAppend(a: string, b: string, p: string, q: string)
    requires |p| == 2 && (a != "" && a[|a| - 1] == p[0] ==> b == "" || b[0] != p[1])
    ensures ReplaceAll(a + b, p, q) == ReplaceAll(a, p, q) + ReplaceAll(b, p, q)
    decreases |a|
  {
    if a == "" {
      assert a + b == b;
    } else {
      var n := Width(a, p);
      ReplaceStep(a, p, q);
      ReplaceStepBefore(a, b, p, q);
      TailLast(a, n);
      PairAppend(a[n..], b, p, q);
      Glue(ReplaceAll(a, p, q), ReplaceAll(a + b, p, q), Head(a, p, q), ReplaceAll(a[n..], p, q),
          ReplaceAll(a[n..] + b, p, q), ReplaceAll(b, p, q));
    }
  }

  /** How far one step of the replacement goes, and what it writes. */
  function Width(a: string, p: string): (n: nat)
    requires |p| == 2 && a != ""
    ensures 0 < n <= |a|
  {
    if p <= a then 2 else 1
  }

  function Head(a: string, p: string, q: string): string
    requires |p| == 2 && a != ""
  {
    if p <= a then q else [a[0]]
  }

  lemma ReplaceStep(a: string, p: string, q: string)
    requires |p| == 2 && a != ""
    ensures ReplaceAll(a, p, q) == Head(a, p, q) + ReplaceAll(a[Width(a, p)..], p, q)
  {
    if p <= a { ReplaceHit(a, p, q); } else { ReplaceMiss(a, p, q); }
  }

  lemma ReplaceStepBefore(a: string, b: string, p: string, q: string)
    requires |p| == 2 && a != "" && (a[|a| - 1] == p[0] ==> b == "" || b[0] != p[1])
    ensures ReplaceAll(a + b, p, q) == Head(a, p, q) + ReplaceAll(a[Width(a, p)..] + b, p, q)
  {
    var n := Width(a, p);
    assert (a + b)[n..] == a[n..] + b && (a + b)[0] == a[0];
    if p <= a {
      ReplaceHit(a + b, p, q);
    } else {
      NoPair(a, b, p);
      ReplaceMiss(a + b, p, q);
    }
  }

  lemma TailLast(a: string, n: nat)
    requires n <= |a|
    ensures a[n..] != "" ==> a[n..][|a[n..]| - 1] == a[|a| - 1]
  {
  }

  lemma Glue(ra: string, rab: string, head: string, ta: string, tab: string, rb: string)
    requires ra == head + ta && rab == head + tab && tab == ta + rb
    ensures rab == ra + rb
  {
  }

  lemma NoPair(a: string, b: string, p: string)
    requires |p| == 2 && a != "" && !(p <= a) && (a[|a| - 1] == p[0] ==> b == "" || b[0] != p[1])
    ensures !(p <= a + b)
  {
    PairSplits(a, b, p);
  }

  lemma PairSplits(a: string, b: string, p: string)
    requires |p| == 2 && a != ""
    ensures p <= a + b ==> p <= a || (|a| == 1 && a[0] == p[0] && b != "" && b[0] == p[1])
  {
    if p <= a + b {
      assert (a + b)[0] == p[0] && (a + b)[1] == p[1];
    }
  }

  lemma {:induction false} CrAppend(a: string, b: string)
    ensures ReplaceAll(a + b, "\r", "\n") == ReplaceAll(a, "\r", "\n") + ReplaceAll(b, "\r", "\n")
  {
    if a == "" {
      assert a + b == b;
    } else {
      assert (a + b)[1..] == a[1..] + b;
      CrAppend(a[1..], b);
    }
  }

  lemma UnixAppend(a: string, b: string)
    requires a != "" && a[|a| - 1] == '\r' ==> b == "" || b[0] != '\n'
    ensures UnixLines(a + b) == UnixLines(a) + UnixLines(b)
  {
    PairAppend(a, b, "\r\n", "\n");
    CrAppend(ReplaceAll(a, "\r\n", "\n"), ReplaceAll(b, "\r\n", "\n"));
  }

  /** Every carriage return, with the line feed after it if there is one, becomes one
      line feed. */
  lemma LineBreaksBecomeLineFeeds(a: string, b: string)
    ensures UnixLines(a + "\r\n" + b) == UnixLines(a) + "\n" + UnixLines(b)
    ensures b == "" || b[0] != '\n' ==> UnixLines(a + "\r" + b) == UnixLines(a) + "\n" + UnixLines(b)
  {
    assert ReplaceAll("\r\n", "\r\n", "\n") == "\n" by { assert "\r\n"[2..] == ""; }
    UnixLinesClean("\n");
    assert UnixLines("\r\n") == "\n" by { assert ReplaceAll("\n", "\r", "\n") == "\n"; }
    UnixAppend(a + "\r\n", b);
    UnixAppend(a, "\r\n");
    if b == "" || b[0] != '\n' {
      assert UnixLines("\r") == "\n" by {
        assert ReplaceAll("\r", "\r\n", "\n") == "\r" && "\r"[1..] == "";
      }
      UnixAppend(a + "\r", b);
      UnixAppend(a, "\r");
    }
  }

  // ---- boxes -------------------------------------------------------------

  /** Replacing starts at the first occurrence and goes on after it. */
  lemma {:induction false} ReplaceFirst(s: string, front: string, p: string, q: string, rest: string)
    requires p != "" && s == front + p + rest && forall j :: 0 <= j < |front| ==> !StandsAt(s, p, j)
    ensures ReplaceAll(s, p, q) == front + q + ReplaceAll(rest, p, q)
    decreases |front|
  {
    if front == "" {
      ReplaceAtOnce(s, p, q, rest);
    } else {
      var t := front[1..];
      Tails(s, front, p, rest);
      forall j | 0 <= j < |t| ensures !StandsAt(s[1..], p, j) {
        StandsInTail(s, p, j);
        assert !StandsAt(s, p, j + 1);
      }
      ReplaceFirst(s[1..], t, p, q, rest);
      ReplaceLater(s, p, q);
      Shifted(ReplaceAll(s, p, q), s[0], ReplaceAll(s[1..], p, q), t, q, ReplaceAll(rest, p, q), front);
    }
  }

  lemma ReplaceLater(s: string, p: string, q: string)
    requires p != "" && s != "" && !StandsAt(s, p, 0)
    ensures ReplaceAll(s, p, q) == [s[0]] + ReplaceAll(s[1..], p, q)
  {
    ReplaceMiss(s, p, q);
  }

  lemma ReplaceAtOnce(s: string, p: string, q: string, rest: string)
    requires p != "" && s == "" + p + rest
    ensures ReplaceAll(s, p, q) == "" + q + ReplaceAll(rest, p, q)
  {
    assert p <= s && s[|p|..] == rest;
    ReplaceHit(s, p, q);
  }

  lemma Tails(s: string, front: string, p: string, rest: string)
    requires s == front + p + rest && front != ""
    ensures s != "" && s[1..] == front[1..] + p + rest && front == [s[0]] + front[1..]
  {
  }

  lemma Shifted(whole: string, c: char, tail: string, x: string, q: string, r: string, front: string)
    requires whole == [c] + tail && tail == x + q + r && front == [c] + x
    ensures whole == front + q + r
  {
  }

  /** A box ticked with a capital letter gets a small one; the text up to it stays, and
      the text after it is treated alike. */
  lemma BoxLowered(a: string, b: string)
    requires !Contains(a + "- [X", BIG_X)
    ensures Checkboxes(a + "- [X]" + b) == a + "- [x]" + Checkboxes(b)
  {
    var s := a + BIG_X + b;
    var before := a + "- [X";
    assert BIG_X[..4] == "- [X" && s[|a|..|a| + 5] == BIG_X && before == s[..|a| + 4];
    forall j | 0 <= j < |a| ensures !StandsAt(s, BIG_X, j) {
      StandsNowhere(before, BIG_X, j);
      assert before[j..j + 5] == s[j..j + 5];
    }
    CheckboxesLowerX(s);
    CheckboxesLowerX(b);
    ReplaceFirst(s, a, BIG_X, SMALL_X, b);
  }

  // ---- comments and boxes under line breaks ------------------------------

  /** Carriage returns read as line feeds, one for one. */
  function MapBreaks(s: string): (t: string)
    ensures |t| == |s|
  {
    if s == "" then "" else [if s[0] == '\r' then '\n' else s[0]] + MapBreaks(s[1..])
  }

  predicate NoBreak(p: string) { '\r' !in p && '\n' !in p }

  lemma {:induction false} MapPrefix(s: string, p: string)
    requires NoBreak(p)
    ensures p <= MapBreaks(s) <==> p <= s
  {
    if s != "" && p != "" {
      MapPrefix(s[1..], p[1..]);
      assert p[0] in p;
      assert p <= MapBreaks(s) <==> p[0] == MapBreaks(s)[0] && p[1..] <= MapBreaks(s)[1..];
      assert p <= s <==> p[0] == s[0] && p[1..] <= s[1..];
    }
  }

  lemma {:induction false} MapContains(s: string, p: string)
    requires NoBreak(p)
    ensures Contains(MapBreaks(s), p) <==> Contains(s, p)
  {
    MapPrefix(s, p);
    if s != "" {
      MapContains(s[1..], p);
      assert MapBreaks(s)[1..] == MapBreaks(s[1..]);
    }
  }

  lemma {:induction false} MapComments(s: string)
    ensures HasComment(MapBreaks(s)) <==> HasComment(s)
  {
    if s != "" {
      MapComments(s[1..]);
      MapPrefix(s, OPEN);
      MapContains(s, CLOSE);
      assert MapBreaks(s)[1..] == MapBreaks(s[1..]);
    }
  }

  lemma {:induction false} MapAppend(a: string, b: string)
    ensures MapBreaks(a + b) == MapBreaks(a) + MapBreaks(b)
  {
    if a == "" {
      assert a + b == b;
    } else {
      MapAppend(a[1..], b);
      assert (a + b)[1..] == a[1..] + b;
    }
  }

  lemma {:induction false} MapCr(s: string)
    ensures MapBreaks(ReplaceAll(s, "\r", "\n")) == MapBreaks(s)
  {
    if s != "" {
      MapCr(s[1..]);
      var t := ReplaceAll(s[1..], "\r", "\n");
      assert ReplaceAll(s, "\r", "\n") == [if s[0] == '\r' then '\n' else s[0]] + t;
      MapAppend([if s[0] == '\r' then '\n' else s[0]], t);
    }
  }

  /** The text with every stretch of line breaks as one line feed. */
  function Squash(s: string): string { CapRuns(MapBreaks(s), '\n', 1) }

  lemma {:induction false} SquashCrlf(s: string, t: string, run: nat)
    requires run <= 1
    ensures CapFrom(MapBreaks(ReplaceAll(s, "\r\n", "\n")) + t, '\n', 1, run) ==
            CapFrom(MapBreaks(s) + t, '\n', 1, run)
    decreases |s|
  {
    if s == "" {
    } else if "\r\n" <= s {
      SquashCrlf(s[2..], t, 1);
      MapHit(s);
      OneBreak(MapBreaks(ReplaceAll(s[2..], "\r\n", "\n")) + t, MapBreaks(s[2..]) + t, run);
      Regroup("\n", MapBreaks(ReplaceAll(s[2..], "\r\n", "\n")), t);
      Regroup("\n\n", MapBreaks(s[2..]), t);
    } else {
      var c := if s[0] == '\r' then '\n' else s[0];
      SquashCrlf(s[1..], t, if c == '\n' then 1 else 0);
      MapMiss(s, c);
      SameStep(c, MapBreaks(ReplaceAll(s[1..], "\r\n", "\n")) + t, MapBreaks(s[1..]) + t, run);
      Regroup([c], MapBreaks(ReplaceAll(s[1..], "\r\n", "\n")), t);
      Regroup([c], MapBreaks(s[1..]), t);
    }
  }

  lemma Regroup(a: string, b: string, c: string)
    ensures a + b + c == a + (b + c)
  {
  }

  lemma MapHit(s: string)
    requires "\r\n" <= s
    ensures MapBreaks(ReplaceAll(s, "\r\n", "\n")) == "\n" + MapBreaks(ReplaceAll(s[2..], "\r\n", "\n"))
    ensures MapBreaks(s) == "\n\n" + MapBreaks(s[2..])
  {
    ReplaceHit(s, "\r\n", "\n");
    MapAppend("\n", ReplaceAll(s[2..], "\r\n", "\n"));
    MapAppend("\r\n", s[2..]);
    MapAppend("\r", "\n");
    assert MapBreaks("\n") == "\n" && MapBreaks("\r") == "\n" && "\r" + "\n" == "\r\n";
    assert s == "\r\n" + s[2..];
  }

  lemma MapMiss(s: string, c: char)
    requires s != "" && !("\r\n" <= s) && c == if s[0] == '\r' then '\n' else s[0]
    ensures MapBreaks(ReplaceAll(s, "\r\n", "\n")) == [c] + MapBreaks(ReplaceAll(s[1..], "\r\n", "\n"))
    ensures MapBreaks(s) == [c] + MapBreaks(s[1..])
  {
    ReplaceMiss(s, "\r\n", "\n");
    MapAppend([s[0]], ReplaceAll(s[1..], "\r\n", "\n"));
    assert MapBreaks([s[0]]) == [c];
  }

  lemma OneBreak(x: string, y: string, run: nat)
    requires run <= 1 && CapFrom(x, '\n', 1, 1) == CapFrom(y, '\n', 1, 1)
    ensures CapFrom("\n" + x, '\n', 1, run) == CapFrom("\n\n" + y, '\n', 1, run)
  {
    CapOne(x, '\n', 1, run);
    CapOne("\n" + y, '\n', 1, run);
    CapOne(y, '\n', 1, 1);
    assert "\n\n" + y == "\n" + ("\n" + y);
  }

  lemma SameStep(c: char, x: string, y: string, run: nat)
    requires run <= 1
    requires CapFrom(x, '\n', 1, if c == '\n' then 1 else 0) == CapFrom(y, '\n', 1, if c == '\n' then 1 else 0)
    ensures CapFrom([c] + x, '\n', 1, run) == CapFrom([c] + y, '\n', 1, run)
  {
    assert ([c] + x)[1..] == x && ([c] + y)[1..] == y;
  }

  lemma {:induction false} SameTail(a: string, x: string, y: string, run: nat)
    requires run <= 1 && forall r: nat :: r <= 1 ==> CapFrom(x, '\n', 1, r) == CapFrom(y, '\n', 1, r)
    ensures CapFrom(a + x, '\n', 1, run) == CapFrom(a + y, '\n', 1, run)
  {
    if a == "" {
      assert a + x == x && a + y == y;
    } else {
      SameTail(a[1..], x, y, if a[0] == '\n' then 1 else 0);
      SameStep(a[0], a[1..] + x, a[1..] + y, run);
      assert a + x == [a[0]] + (a[1..] + x) && a + y == [a[0]] + (a[1..] + y);
    }
  }

  /** Rewriting line breaks, in two parts even, does not show once they are squashed. */
  lemma SquashUnix(a: string, b: string)
    ensures Squash(UnixLines(a) + UnixLines(b)) == Squash(a + b)
  {
    var x, y := ReplaceAll(a, "\r\n", "\n"), ReplaceAll(b, "\r\n", "\n");
    MapCr(x);
    MapCr(y);
    MapAppend(UnixLines(a), UnixLines(b));
    MapAppend(a, b);
    SquashCrlf(a, MapBreaks(y), 0);
    forall r: nat | r <= 1
      ensures CapFrom(MapBreaks(y), '\n', 1, r) == CapFrom(MapBreaks(b), '\n', 1, r)
    {
      SquashCrlf(b, "", r);
      assert MapBreaks(y) + "" == MapBreaks(y) && MapBreaks(b) + "" == MapBreaks(b);
    }
    SameTail(MapBreaks(a), MapBreaks(y), MapBreaks(b), 0);
  }

  lemma SquashComments(s: string)
    ensures HasComment(Squash(s)) <==> HasComment(s)
  {
    MapComments(s);
    CapComments(MapBreaks(s), 1, 0);
  }

  lemma SquashContains(s: string, p: string)
    requires NoBreak(p) && p != ""
    ensures Contains(Squash(s), p) <==> Contains(s, p)
  {
    MapContains(s, p);
    CapContains(MapBreaks(s), '\n', 1, 0, p);
  }

  lemma UnixContains(s: string, p: string)
    requires NoBreak(p) && p != ""
    ensures Contains(UnixLines(s), p) <==> Contains(s, p)
  {
    SquashUnix(s, "");
    assert UnixLines(s) + UnixLines("") == UnixLines(s) && s + "" == s;
    SquashContains(UnixLines(s), p);
    SquashContains(s, p);
  }

  // ---- an issue with one comment -----------------------------------------

  /** An issue with one comment and no capital box: all its visible characters before
      the comment, then all of them after it, and nothing else. */
  lemma IssueWithOneComment(a: string, m: string, b: string)
    requires !Contains(a + "<!-", OPEN) && !Contains(OPEN + m + "--", CLOSE)
    requires !HasComment(a + b) && !Contains(a + b, BIG_X)
    ensures NonSpace(GitHubText(a + OPEN + m + CLOSE + b)) == NonSpace(a) + NonSpace(b)
  {
    var x, y := UnixLines(a), UnixLines(b);
    UnixAround(a, m, b);
    UnixContains(a + "<!-", OPEN);
    UnixContains(OPEN + m + "--", CLOSE);
    CommentCutOut(x, UnixLines(m), y);
    SquashUnix(a, b);
    SquashComments(x + y);
    SquashComments(a + b);
    SquashContains(x + y, BIG_X);
    SquashContains(a + b, BIG_X);
    CommentsGone(x + y);
    CheckboxesLowerX(x + y);
    IssueKeepsText(a + OPEN + m + CLOSE + b);
    NonSpaceAppend(x, y);
    UnixLinesKeeps(a);
    UnixLinesKeeps(b);
  }

  /** Line breaks are rewritten on each side of a comment's marks on their own. */
  lemma UnixAround(a: string, m: string, b: string)
    ensures UnixLines(a + OPEN + m + CLOSE + b) == UnixLines(a) + OPEN + UnixLines(m) + CLOSE + UnixLines(b)
    ensures UnixLines(a + "<!-") == UnixLines(a) + "<!-"
    ensures UnixLines(OPEN + m + "--") == OPEN + UnixLines(m) + "--"
  {
    UnixLinesClean(OPEN);
    UnixLinesClean(CLOSE);
    UnixLinesClean("<!-");
    UnixLinesClean("--");
    UnixAppend(a, "<!-");
    UnixAppend(a, OPEN);
    UnixAppend(OPEN, m);
    UnixAppend(OPEN + m, "--");
    UnixAppend(a + OPEN, m);
    UnixAppend(a + OPEN + m, CLOSE);
    UnixAppend(a + OPEN + m + CLOSE, b);
  }
}
