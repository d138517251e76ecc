/** The Markdown, GitHub-issue and PDF normalisers. Each rewrites its text with
    loops that run until a pattern is gone; the loops are proved to terminate and
    to agree with one-pass specifications, and the GitHub normaliser, whose steps
    might re-enable one another, is proved idempotent. */
module Normalisers {
  import opened Text
  import opened Wrappers

  // ---- capping runs of one character -------------------------------------

  /** One left-to-right pass that keeps at most `k` consecutive `c`s, given that
      `run` of them directly precede `s`. */
  function CapFrom(s: string, c: char, k: nat, run: nat): string {
    if s == "" then ""
    else if s[0] != c then [s[0]] + CapFrom(s[1..], c, k, 0)
    else if run < k then [c] + CapFrom(s[1..], c, k, run + 1)
    else CapFrom(s[1..], c, k, run)
  }

  function CapRuns(s: string, c: char, k: nat): string {
    CapFrom(s, c, k, 0)
  }

  function Min(a: nat, b: nat): nat { if a <= b then a else b }

  /** What the pass does to a block of `n` copies of `c`. */
  lemma {:induction false} CapBlock(n: nat, t: string, c: char, k: nat, run: nat)
    requires run <= k
    ensures CapFrom(Repeat(c, n) + t, c, k, run) == Repeat(c, Min(n, k - run)) + CapFrom(t, c, k, Min(run + n, k))
  {
    if n == 0 {
      assert Repeat(c, 0) + t == t;
    } else {
      var s := Repeat(c, n) + t;
      assert s == [c] + (Repeat(c, n - 1) + t);
      CapOne(Repeat(c, n - 1) + t, c, k, run);
      if run < k {
        CapBlock(n - 1, t, c, k, run + 1);
        RepeatMore(c, Min(n - 1, k - run - 1), CapFrom(t, c, k, Min(run + n, k)));
      } else {
        CapBlock(n - 1, t, c, k, run);
      }
    }
  }

  lemma CapOne(u: string, c: char, k: nat, run: nat)
    ensures CapFrom([c] + u, c, k, run) == if run < k then [c] + CapFrom(u, c, k, run + 1) else CapFrom(u, c, k, run)
  {
    assert ([c] + u)[1..] == u;
  }

  lemma RepeatMore(c: char, m: nat, u: string)
    ensures [c] + (Repeat(c, m) + u) == Repeat(c, m + 1) + u
  {
    assert Repeat(c, m + 1) == [c] + Repeat(c, m);
  }

  /** The pass handles text up to a non-`c` character on its own. */
  lemma {:induction false} CapSplit(a: string, b: string, c: char, k: nat, run: nat)
    requires a != "" && a[|a| - 1] != c
    ensures CapFrom(a + b, c, k, run) == CapFrom(a, c, k, run) + CapFrom(b, c, k, 0)
  {
    assert (a + b)[1..] == a[1..] + b;
    if |a| == 1 {
      assert (a + b)[1..] == b;
    } else {
      CapSplit(a[1..], b, c, k, if a[0] != c then 0 else if run < k then run + 1 else run);
    }
  }

  /** A run that ends where another character or nothing follows. */
  lemma CapRunAtEdge(n: nat, b: string, c: char, k: nat)
    requires b != "" ==> b[0] != c
    ensures CapRuns(Repeat(c, n) + b, c, k) == Repeat(c, Min(n, k)) + CapRuns(b, c, k)
  {
    CapBlock(n, b, c, k, 0);
  }

  /** The pass caps every maximal run at `k` and copies everything around it. */
  lemma CapMaximalRun(a: string, n: nat, b: string, c: char, k: nat)
    requires a != "" ==> a[|a| - 1] != c
    requires b != "" ==> b[0] != c
    ensures CapRuns(a + Repeat(c, n) + b, c, k) == CapRuns(a, c, k) + Repeat(c, Min(n, k)) + CapRuns(b, c, k)
  {
    var t := Repeat(c, n) + b;
    CapRunAtEdge(n, b, c, k);
    assert a + Repeat(c, n) + b == a + t;
    if a == "" {
      assert a + t == t;
    } else {
      CapSplit(a, t, c, k, 0);
    }
  }

  /** One sweep of the source's loop, which replaces k+1 copies by k, does not
      change what the pass yields. */
  lemma {:induction false} SweepKeepsCap(s: string, c: char, k: nat, run: nat)
    requires run <= k
    ensures CapFrom(ReplaceAll(s, Repeat(c, k + 1), Repeat(c, k)), c, k, run) == CapFrom(s, c, k, run)
    decreases |s|
  {
    var p, q := Repeat(c, k + 1), Repeat(c, k);
    if s == "" {
    } else if p <= s {
      var t := s[k + 1..];
      assert s == p + t;
      SweepKeepsCap(t, c, k, k);
      CapBlock(k + 1, t, c, k, run);
      CapBlock(k, ReplaceAll(t, p, q), c, k, run);
    } else {
      var r := ReplaceAll(s[1..], p, q);
      assert ([s[0]] + r)[1..] == r;
      SweepKeepsCap(s[1..], c, k, if s[0] != c then 0 else Min(run + 1, k));
    }
  }

  /** No run of `c` in `s` is longer than `k`, counting `run` copies in front. */
  predicate Capped(s: string, c: char, k: nat, run: nat) {
    s == "" || (if s[0] != c then Capped(s[1..], c, k, 0) else run < k && Capped(s[1..], c, k, run + 1))
  }

  /** Capped says that k+1 consecutive copies do not occur. */
  lemma {:induction false} CappedMeans(s: string, c: char, k: nat, run: nat)
    requires run <= k
    ensures Capped(s, c, k, run) <==> !Contains(Repeat(c, run) + s, Repeat(c, k + 1))
  {
    var p := Repeat(c, k + 1);
    if s == "" {
      assert Repeat(c, run) + s == Repeat(c, run);
      TooShort(Repeat(c, run), p);
    } else if s[0] != c {
      CappedMeans(s[1..], c, k, 0);
      assert Repeat(c, 0) + s[1..] == s[1..];
      assert s == [s[0]] + s[1..];
      ShortRun(run, s[0], s[1..], c, p);
    } else if run < k {
      CappedMeans(s[1..], c, k, run + 1);
      assert Repeat(c, run) + s == Repeat(c, run + 1) + s[1..];
    } else {
      assert Repeat(c, run) + s == p + s[1..];
    }
  }

  lemma CappedWhole(s: string, c: char, k: nat)
    ensures Capped(s, c, k, 0) <==> !Contains(s, Repeat(c, k + 1))
  {
    CappedMeans(s, c, k, 0);
    assert Repeat(c, 0) + s == s;
  }

  lemma {:induction false} TooShort(s: string, p: string)
    requires |s| < |p|
    ensures !Contains(s, p)
  {
    if s != "" { TooShort(s[1..], p); }
  }

  lemma {:induction false} ShortRun(run: nat, d: char, t: string, c: char, p: string)
    requires run < |p| && d != c && forall i :: 0 <= i < |p| ==> p[i] == c
    ensures Contains(Repeat(c, run) + ([d] + t), p) <==> Contains(t, p)
  {
    var s := Repeat(c, run) + ([d] + t);
    assert s[run] == d;
    if run == 0 {
      assert s[1..] == t;
    } else {
      assert s[1..] == Repeat(c, run - 1) + ([d] + t);
      ShortRun(run - 1, d, t, c, p);
    }
  }

  /** The pass leaves no long run, and is the identity exactly on text without one. */
  lemma {:induction false} CapIsCapped(s: string, c: char, k: nat, run: nat)
    requires run <= k
    ensures Capped(CapFrom(s, c, k, run), c, k, run)
    ensures CapFrom(s, c, k, run) == s <==> Capped(s, c, k, run)
    ensures |CapFrom(s, c, k, run)| <= |s|
  {
    if s != "" {
      CapIsCapped(s[1..], c, k, if s[0] != c then 0 else Min(run + 1, k));
    }
  }

  /** `for strings.Contains(s, c^(k+1)) { s = strings.ReplaceAll(s, c^(k+1), c^k) }`:
      the loop of internal/normalisers/markdown.go (and of pdf.go, github_issue.go,
      html.go) terminates with exactly the one-pass result. */
  method CollapseRuns(content: string, c: char, k: nat) returns (text: string)
    ensures text == CapRuns(content, c, k)
    ensures !Contains(text, Repeat(c, k + 1))
  {
    var long, short := Repeat(c, k + 1), Repeat(c, k);
    text := content;
    while Contains(text, long)
      invariant CapRuns(text, c, k) == CapRuns(content, c, k)
      decreases |text|
    {
      SweepKeepsCap(text, c, k, 0);
      ReplaceShrinks(text, long, short);
      text := ReplaceAll(text, long, short);
    }
    CappedWhole(text, c, k);
    CapIsCapped(text, c, k, 0);
  }

  // ---- what capping preserves --------------------------------------------

  /** A pattern without `c` starts the capped text iff it starts the text. */
  lemma {:induction false} CapPrefix(s: string, c: char, k: nat, p: string)
    requires k > 0 && c !in p
    ensures p <= CapRuns(s, c, k) <==> p <= s
  {
    if s != "" && p != "" {
      if s[0] != c {
        CapPrefix(s[1..], c, k, p[1..]);
        var t := CapRuns(s[1..], c, k);
        assert p <= [s[0]] + t <==> p[0] == s[0] && p[1..] <= t;
        assert p <= s <==> p[0] == s[0] && p[1..] <= s[1..];
      } else {
        assert p[0] != c;
      }
    }
  }

  /** Capping neither creates nor destroys occurrences of a pattern without `c`. */
  lemma {:induction false} CapContains(s: string, c: char, k: nat, run: nat, p: string)
    requires k > 0 && run <= k && c !in p && p != ""
    ensures Contains(CapFrom(s, c, k, run), p) <==> Contains(s, p)
  {
    if s != "" {
      assert p[0] != c;
      if s[0] != c {
        CapContains(s[1..], c, k, 0, p);
        CapPrefix(s, c, k, p);
        assert ([s[0]] + CapFrom(s[1..], c, k, 0))[1..] == CapFrom(s[1..], c, k, 0);
      } else if run < k {
        CapContains(s[1..], c, k, run + 1, p);
        assert ([c] + CapFrom(s[1..], c, k, run + 1))[1..] == CapFrom(s[1..], c, k, run + 1);
      } else {
        CapContains(s[1..], c, k, run, p);
      }
    }
  }

  lemma {:induction false} CapChars(s: string, c: char, k: nat, run: nat)
    ensures forall x :: x in CapFrom(s, c, k, run) ==> x in s
  {
    if s != "" { CapChars(s[1..], c, k, if s[0] != c then 0 else if run < k then run + 1 else run); }
  }

  // ---- HTML comments -----------------------------------------------------

  const OPEN := "<!--"
  const CLOSE := "-->"

  /** The loop of removeHTMLComments has something to remove: a comment opener
      with a closer at or after it (the two may share their dashes). */
  predicate HasComment(s: string) {
    s != "" && ((OPEN <= s && Contains(s, CLOSE)) || HasComment(s[1..]))
  }

  /** HasComment by positions: some closer stands at or after some opener. */
  lemma {:induction false} HasCommentAt(s: string)
    ensures HasComment(s) <==> exists i, j :: 0 <= i <= j <= |s| && OPEN <= s[i..] && CLOSE <= s[j..]
  {
    ContainsAt(s, CLOSE);
    if s != "" {
      HasCommentAt(s[1..]);
      assert forall i :: 1 <= i <= |s| ==> s[1..][i - 1..] == s[i..];
      assert s[0..] == s;
      if HasComment(s[1..]) {
        var i, j :| 0 <= i <= j <= |s[1..]| && OPEN <= s[1..][i..] && CLOSE <= s[1..][j..];
        assert OPEN <= s[i + 1..] && CLOSE <= s[j + 1..];
      } else if HasComment(s) {
        var j :| 0 <= j <= |s| && CLOSE <= s[j..];
        assert OPEN <= s[0..] && CLOSE <= s[j..];
      }
      forall i, j | 0 <= i <= j <= |s| && OPEN <= s[i..] && CLOSE <= s[j..] ensures HasComment(s) {
        if i > 0 { assert OPEN <= s[1..][i - 1..] && CLOSE <= s[1..][j - 1..]; }
      }
    }
  }

  lemma {:induction false} CommentCloses(s: string)
    ensures HasComment(s) ==> Contains(s, CLOSE)
  {
    if s != "" { CommentCloses(s[1..]); }
  }

  /** What the loop looks for: an opener and, from the first opener on, a closer. */
  predicate Cuttable(s: string) {
    Index(s, OPEN) >= 0 && Index(s[Index(s, OPEN)..], CLOSE) >= 0
  }

  /** Looking for a closer after the first opener is enough. */
  lemma {:induction false} FirstCommentIsComment(s: string)
    ensures HasComment(s) <==> Cuttable(s)
  {
    var i := Index(s, OPEN);
    if OPEN <= s {
      CommentCloses(s[1..]);
      assert s[0..] == s;
    } else if s != "" {
      FirstCommentIsComment(s[1..]);
      assert i >= 0 ==> s[i..] == s[1..][i - 1..];
    }
  }

  /** Where the first comment ends. */
  function CommentEnd(s: string): (end: nat)
    requires Cuttable(s)
    ensures Index(s, OPEN) < end <= |s|
  {
    Index(s, OPEN) + Index(s[Index(s, OPEN)..], CLOSE) + 3
  }

  /** The text without its first comment: the loop's assignment. */
  function CutFirst(s: string): (t: string)
    requires Cuttable(s)
    ensures |t| < |s|
  {
    s[..Index(s, OPEN)] + s[CommentEnd(s)..]
  }

  /** The first comment is cut out, again and again, until none is left. */
  function WithoutComments(s: string): string
    decreases |s|
  {
    if Cuttable(s) then WithoutComments(CutFirst(s)) else s
  }

  lemma WithoutMore(s: string)
    requires Cuttable(s)
    ensures WithoutComments(CutFirst(s)) == WithoutComments(s)
  {
  }

  /** One round of the loop: the text without its first comment, or None. */
  method CutComment(content: string) returns (rest: Option<string>)
    ensures rest == if Cuttable(content) then Some(CutFirst(content)) else None
  {
    var startIdx := Index(content, OPEN);
    if startIdx == -1 { return None; }
    var endIdx := Index(content[startIdx..], CLOSE);
    if endIdx == -1 { return None; }
    return Some(content[..startIdx] + content[startIdx + endIdx + 3..]);
  }

  /** removeHTMLComments: the loop terminates with the specified text. */
  method RemoveHTMLComments(content: string) returns (result: string)
    ensures result == WithoutComments(content)
  {
    result := content;
    while true
      invariant WithoutComments(result) == WithoutComments(content)
      decreases |result|
    {
      var rest := CutComment(result);
      if rest.None? { break; }
      WithoutMore(result);
      result := rest.value;
    }
  }

  /** `t` can be had from `s` by deleting characters. */
  predicate Subsequence(t: string, s: string) {
    t == "" || (s != "" && ((t[0] == s[0] && Subsequence(t[1..], s[1..])) || Subsequence(t, s[1..])))
  }

  lemma {:induction false} SubsequenceSelf(s: string)
    ensures Subsequence(s, s)
  {
    if s != "" { SubsequenceSelf(s[1..]); }
  }

  lemma {:induction false} SubsequenceCut(t: string, a: string, m: string, b: string)
    requires Subsequence(t, a + b)
    ensures Subsequence(t, a + m + b)
  {
    if t == "" {
    } else if a != "" {
      assert (a + b)[1..] == a[1..] + b && (a + m + b)[1..] == a[1..] + m + b;
      if t[0] == a[0] && Subsequence(t[1..], a[1..] + b) {
        SubsequenceCut(t[1..], a[1..], m, b);
      } else {
        SubsequenceCut(t, a[1..], m, b);
      }
    } else if m != "" {
      assert (a + m + b)[1..] == a + m[1..] + b;
      SubsequenceCut(t, a, m[1..], b);
    } else {
      assert a + m + b == a + b;
    }
  }

  /** Comment removal leaves no opener followed by a closer, only deletes
      characters, and touches nothing exactly when there was no comment. */
  lemma {:induction false} CommentsGone(s: string)
    ensures !HasComment(WithoutComments(s))
    ensures Subsequence(WithoutComments(s), s)
    ensures WithoutComments(s) == s <==> !HasComment(s)
    ensures |WithoutComments(s)| <= |s|
    decreases |s|
  {
    FirstCommentIsComment(s);
    if Cuttable(s) {
      CommentsGone(CutFirst(s));
      CutFirstDeletes(WithoutComments(CutFirst(s)), s);
    } else {
      SubsequenceSelf(s);
    }
  }

  lemma CutFirstDeletes(t: string, s: string)
    requires Cuttable(s) && Subsequence(t, CutFirst(s))
    ensures Subsequence(t, s)
  {
    var start := Index(s, OPEN);
    var end := start + Index(s[start..], CLOSE) + 3;
    assert s == s[..start] + s[start..end] + s[end..];
    SubsequenceCut(t, s[..start], s[start..end], s[end..]);
  }

  lemma {:induction false} SubsequenceChars(t: string, s: string)
    requires Subsequence(t, s)
    ensures forall x :: x in t ==> x in s
  {
    if t != "" {
      assert t == [t[0]] + t[1..];
      if t[0] == s[0] && Subsequence(t[1..], s[1..]) {
        SubsequenceChars(t[1..], s[1..]);
      } else {
        SubsequenceChars(t, s[1..]);
      }
    }
  }

  /** A part of a comment-free text is comment-free. */
  lemma NoCommentInMiddle(a: string, s: string, b: string)
    requires HasComment(s)
    ensures HasComment(a + s + b)
  {
    HasCommentAt(s);
    var i, j :| 0 <= i <= j <= |s| && OPEN <= s[i..] && CLOSE <= s[j..];
    var w := a + s + b;
    assert w[|a| + i..] == s[i..] + b && w[|a| + j..] == s[j..] + b;
    assert OPEN <= w[|a| + i..] && CLOSE <= w[|a| + j..];
    HasCommentAt(w);
  }

  /** Capping runs of line feeds neither creates nor removes comments. */
  lemma {:induction false} CapComments(s: string, k: nat, run: nat)
    requires k > 0 && run <= k
    ensures HasComment(CapFrom(s, '\n', k, run)) <==> HasComment(s)
  {
    if s != "" {
      var next := if s[0] != '\n' then 0 else Min(run + 1, k);
      var t := CapFrom(s[1..], '\n', k, next);
      CapComments(s[1..], k, next);
      if s[0] != '\n' {
        assert ([s[0]] + t)[1..] == t;
        CapPrefix(s, '\n', k, OPEN);
        CapContains(s, '\n', k, 0, CLOSE);
      } else {
        assert ([s[0]] + t)[1..] == t;
        assert !(OPEN <= s) && !(OPEN <= [s[0]] + t) by { assert OPEN[0] != s[0]; }
      }
    }
  }

  // ---- checkbox markers --------------------------------------------------

  const BIG_X := "- [X]"
  const SMALL_X := "- [x]"

  /** The three replacements of the GitHub normaliser, of which two replace a
      marker by itself. */
  function Checkboxes(s: string): string {
    ReplaceAll(ReplaceAll(ReplaceAll(s, "- [ ]", "- [ ]"), SMALL_X, SMALL_X), BIG_X, SMALL_X)
  }

  /** `t` differs from `s` at most in having some X lower-cased. */
  predicate LowersX(t: string, s: string) {
    |t| == |s| && forall i :: 0 <= i < |s| ==> t[i] == s[i] || (s[i] == 'X' && t[i] == 'x')
  }

  lemma {:induction false} ReplaceLowersX(s: string)
    ensures LowersX(ReplaceAll(s, BIG_X, SMALL_X), s)
    decreases |s|
  {
    if s == "" {
    } else if BIG_X <= s {
      ReplaceLowersX(s[5..]);
      assert s == BIG_X + s[5..];
    } else {
      ReplaceLowersX(s[1..]);
      assert s == [s[0]] + s[1..];
    }
  }

  /** A prefix that the pattern cannot start in is irrelevant. */
  lemma {:induction false} SkipPrefix(a: string, t: string, p: string)
    requires forall i :: 0 <= i < |a| ==> !(p <= a[i..] + t)
    ensures Contains(a + t, p) <==> Contains(t, p)
  {
    if a == "" {
      assert a + t == t;
    } else {
      assert (a + t)[1..] == a[1..] + t;
      assert a[0..] + t == a + t;
      forall i | 0 <= i < |a[1..]| ensures !(p <= a[1..][i..] + t) { assert a[1..][i..] == a[i + 1..]; }
      SkipPrefix(a[1..], t, p);
    }
  }

  lemma {:induction false} BigXGone(s: string)
    ensures !Contains(ReplaceAll(s, BIG_X, SMALL_X), BIG_X)
    decreases |s|
  {
    if s == "" {
    } else if BIG_X <= s {
      BigXGone(s[5..]);
      var t := ReplaceAll(s[5..], BIG_X, SMALL_X);
      forall i | 0 <= i < 5 ensures !(BIG_X <= SMALL_X[i..] + t) {
        var u := SMALL_X[i..] + t;
        assert u[0] == SMALL_X[i] && (i == 0 ==> u[3] == 'x');
      }
      SkipPrefix(SMALL_X, t, BIG_X);
    } else {
      BigXGone(s[1..]);
      ReplaceLowersX(s);
      var t := ReplaceAll(s[1..], BIG_X, SMALL_X);
      var r := [s[0]] + t;
      assert r[1..] == t;
      assert BIG_X <= r ==> BIG_X <= s;
    }
  }

  /** Lower-casing X does not affect comments. */
  lemma {:induction false} LowersXComments(t: string, s: string)
    requires LowersX(t, s)
    ensures HasComment(t) <==> HasComment(s)
    ensures Contains(t, CLOSE) <==> Contains(s, CLOSE)
  {
    if s != "" {
      LowersXComments(t[1..], s[1..]);
      assert OPEN <= t <==> OPEN <= s by { LowersXPrefix(t, s, OPEN); }
      assert CLOSE <= t <==> CLOSE <= s by { LowersXPrefix(t, s, CLOSE); }
    }
  }

  lemma {:induction false} LowersXPrefix(t: string, s: string, p: string)
    requires LowersX(t, s) && 'x' !in p && 'X' !in p
    ensures p <= t <==> p <= s
  {
    if p != "" && s != "" {
      LowersXPrefix(t[1..], s[1..], p[1..]);
      assert p[0] in p;
      assert p <= t <==> p[0] == t[0] && p[1..] <= t[1..];
      assert p <= s <==> p[0] == s[0] && p[1..] <= s[1..];
    }
  }

  lemma CheckboxesLowerX(s: string)
    ensures Checkboxes(s) == ReplaceAll(s, BIG_X, SMALL_X)
    ensures LowersX(Checkboxes(s), s) && !Contains(Checkboxes(s), BIG_X)
    ensures !Contains(s, BIG_X) ==> Checkboxes(s) == s
  {
    ReplaceBySelf(s, "- [ ]");
    ReplaceBySelf(s, SMALL_X);
    ReplaceLowersX(s);
    BigXGone(s);
    if !Contains(s, BIG_X) { ReplaceAbsent(s, BIG_X, SMALL_X); }
  }

  // ---- the normalisers ---------------------------------------------------

  /** What GitHubIssueNormaliser.Normalise computes. */
  function GitHubText(content: string): string {
    TrimSpace(CapRuns(Checkboxes(WithoutComments(UnixLines(content))), '\n', 2))
  }

  method NormaliseGitHubIssue(raw: string) returns (text: string)
    ensures text == GitHubText(raw)
  {
    var content := ReplaceAll(raw, "\r\n", "\n");
    content := ReplaceAll(content, "\r", "\n");
    content := RemoveHTMLComments(content);
    content := ReplaceAll(content, "- [ ]", "- [ ]");
    content := ReplaceAll(content, "- [x]", "- [x]");
    content := ReplaceAll(content, "- [X]", "- [x]");
    content := CollapseRuns(content, '\n', 2);
    return TrimSpace(content);
  }

  /** Everything the GitHub normaliser is meant to clean away is away. */
  predicate CleanIssue(s: string) {
    && '\r' !in s
    && !HasComment(s)
    && !Contains(s, BIG_X)
    && !Contains(s, "\n\n\n")
    && Trimmed(s)
  }

  /** The output is clean: no later step brings back what an earlier one removed. */
  lemma GitHubTextIsClean(content: string)
    ensures CleanIssue(GitHubText(content))
  {
    var s1 := UnixLines(content);
    var s2 := WithoutComments(s1);
    var s3 := Checkboxes(s2);
    var s4 := CapRuns(s3, '\n', 2);
    UnixLinesClean(content);
    CommentsGone(s1);
    SubsequenceChars(s2, s1);
    CheckboxesLowerX(s2);
    LowersXComments(s3, s2);
    assert '\r' !in s3 by {
      forall i | 0 <= i < |s3| ensures s3[i] != '\r' { assert s2[i] in s2; }
    }
    CapChars(s3, '\n', 2, 0);
    CapComments(s3, 2, 0);
    CapContains(s3, '\n', 2, 0, BIG_X);
    CapIsCapped(s3, '\n', 2, 0);
    CappedNewlines(s4);
    MiddleStaysClean(s4);
  }

  /** Trimming keeps text clean. */
  lemma MiddleStaysClean(s: string)
    requires '\r' !in s && !HasComment(s) && !Contains(s, BIG_X) && !Contains(s, "\n\n\n")
    ensures CleanIssue(TrimSpace(s))
  {
    var a, b := TrimSpaceShape(s);
    var t := TrimSpace(s);
    if HasComment(t) { NoCommentInMiddle(a, t, b); }
    if Contains(t, BIG_X) { ContainsInMiddle(a, t, b, BIG_X); }
    if Contains(t, "\n\n\n") { ContainsInMiddle(a, t, b, "\n\n\n"); }
  }

  /** A text is a fixed point of the normaliser exactly when it is clean. */
  lemma GitHubFixedPoints(s: string)
    ensures GitHubText(s) == s <==> CleanIssue(s)
  {
    GitHubTextIsClean(s);
    if CleanIssue(s) {
      UnixLinesClean(s);
      CommentsGone(s);
      CheckboxesLowerX(s);
      CappedNewlines(s);
      CapIsCapped(s, '\n', 2, 0);
      var a, b := TrimSpaceShape(s);
    }
  }

  /** Normalising twice is normalising once, for every input. */
  lemma GitHubIdempotent(content: string)
    ensures GitHubText(GitHubText(content)) == GitHubText(content)
  {
    GitHubTextIsClean(content);
    GitHubFixedPoints(GitHubText(content));
  }

  /** What MarkdownNormaliser.Normalise computes. */
  function MarkdownText(content: string): string {
    TrimSpace(CapRuns(UnixLines(content), '\n', 2))
  }

  method NormaliseMarkdown(raw: string) returns (text: string)
    ensures text == MarkdownText(raw)
  {
    var content := ReplaceAll(raw, "\r\n", "\n");
    content := ReplaceAll(content, "\r", "\n");
    content := CollapseRuns(content, '\n', 2);
    return TrimSpace(content);
  }

  predicate CleanMarkdown(s: string) {
    '\r' !in s && !Contains(s, "\n\n\n") && Trimmed(s)
  }

  /** The output is clean, and exactly the clean texts are left alone. */
  lemma MarkdownFixedPoints(s: string)
    ensures CleanMarkdown(MarkdownText(s))
    ensures MarkdownText(s) == s <==> CleanMarkdown(s)
  {
    UnixLinesClean(s);
    CapChars(UnixLines(s), '\n', 2, 0);
    CapIsCapped(UnixLines(s), '\n', 2, 0);
    CapIsCapped(s, '\n', 2, 0);
    CappedNewlines(s);
    TrimmedIsClean(CapRuns(UnixLines(s), '\n', 2));
    var a, b := TrimSpaceShape(s);
  }

  lemma CappedNewlines(s: string)
    ensures Capped(s, '\n', 2, 0) <==> !Contains(s, "\n\n\n")
  {
    CappedWhole(s, '\n', 2);
    assert Repeat('\n', 3) == "\n\n\n";
  }

  lemma TrimmedIsClean(s: string)
    requires '\r' !in s && Capped(s, '\n', 2, 0)
    ensures CleanMarkdown(TrimSpace(s))
    ensures !Contains(s, "  ") ==> !Contains(TrimSpace(s), "  ")
  {
    CappedNewlines(s);
    var a, b := TrimSpaceShape(s);
    if Contains(TrimSpace(s), "\n\n\n") { ContainsInMiddle(a, TrimSpace(s), b, "\n\n\n"); }
    if Contains(TrimSpace(s), "  ") { ContainsInMiddle(a, TrimSpace(s), b, "  "); }
  }

  /** What PDFNormaliser.Normalise makes of the assembled pages. */
  function PdfText(assembled: string): string {
    TrimSpace(CapRuns(CapRuns(UnixLines(assembled), ' ', 1), '\n', 2))
  }

  method NormalisePdfText(assembled: string) returns (text: string)
    ensures text == PdfText(assembled)
  {
    text := ReplaceAll(assembled, "\r\n", "\n");
    text := ReplaceAll(text, "\r", "\n");
    text := CollapseRuns(text, ' ', 1);
    text := CollapseRuns(text, '\n', 2);
    return TrimSpace(text);
  }

  predicate CleanPdf(s: string) {
    CleanMarkdown(s) && !Contains(s, "  ")
  }

  lemma CappedSpaces(s: string)
    ensures Capped(s, ' ', 1, 0) <==> !Contains(s, "  ")
  {
    CappedWhole(s, ' ', 1);
    assert Repeat(' ', 2) == "  ";
  }

  /** The second loop does not bring back what the first removed. */
  lemma PdfTextIsClean(s: string)
    ensures CleanPdf(PdfText(s))
  {
    var s1 := UnixLines(s);
    var s2 := CapRuns(s1, ' ', 1);
    UnixLinesClean(s);
    CapChars(s1, ' ', 1, 0);
    CapChars(s2, '\n', 2, 0);
    CapIsCapped(s1, ' ', 1, 0);
    CapIsCapped(s2, '\n', 2, 0);
    CappedSpaces(s2);
    CapContains(s2, '\n', 2, 0, "  ");
    TrimmedIsClean(CapRuns(s2, '\n', 2));
  }

  /** Exactly the clean texts are left alone, so cleaning twice is cleaning once. */
  lemma PdfFixedPoints(s: string)
    ensures PdfText(s) == s <==> CleanPdf(s)
    ensures PdfText(PdfText(s)) == PdfText(s)
  {
    PdfTextIsClean(s);
    CleanPdfFixed(PdfText(s));
    if CleanPdf(s) { CleanPdfFixed(s); }
  }

  lemma CleanPdfFixed(s: string)
    requires CleanPdf(s)
    ensures PdfText(s) == s
  {
    UnixLinesClean(s);
    CappedSpaces(s);
    CappedNewlines(s);
    CapIsCapped(s, ' ', 1, 0);
    CapIsCapped(s, '\n', 2, 0);
    var a, b := TrimSpaceShape(s);
  }

  // ---- nothing but white space is lost -----------------------------------

  /** The characters that are not white space, in order. */
  function NonSpace(s: string): string {
    if s == "" then "" else (if IsSpace(s[0]) then "" else [s[0]]) + NonSpace(s[1..])
  }

  lemma {:induction false} NonSpaceAppend(a: string, b: string)
    ensures NonSpace(a + b) == NonSpace(a) + NonSpace(b)
  {
    if a == "" {
      assert a + b == b;
    } else {
      assert (a + b)[1..] == a[1..] + b;
      NonSpaceAppend(a[1..], b);
    }
  }

  lemma {:induction false} NonSpaceOfSpace(s: string)
    requires forall c :: c in s ==> IsSpace(c)
    ensures NonSpace(s) == ""
  {
    if s != "" { NonSpaceOfSpace(s[1..]); }
  }

  lemma {:induction false} ReplaceKeeps(s: string, p: string, q: string)
    requires p != "" && NonSpace(p) == NonSpace(q)
    ensures NonSpace(ReplaceAll(s, p, q)) == NonSpace(s)
    decreases |s|
  {
    if s == "" {
    } else if p <= s {
      ReplaceKeeps(s[|p|..], p, q);
      NonSpaceAppend(q, ReplaceAll(s[|p|..], p, q));
      NonSpaceAppend(p, s[|p|..]);
      assert s == p + s[|p|..];
    } else {
      ReplaceKeeps(s[1..], p, q);
      assert ([s[0]] + ReplaceAll(s[1..], p, q))[1..] == ReplaceAll(s[1..], p, q);
    }
  }

  lemma {:induction false} CapKeeps(s: string, c: char, k: nat, run: nat)
    requires IsSpace(c)
    ensures NonSpace(CapFrom(s, c, k, run)) == NonSpace(s)
  {
    if s != "" {
      var next := if s[0] != c then 0 else if run < k then run + 1 else run;
      CapKeeps(s[1..], c, k, next);
      assert ([s[0]] + CapFrom(s[1..], c, k, next))[1..] == CapFrom(s[1..], c, k, next);
    }
  }

  lemma TrimKeeps(s: string)
    ensures NonSpace(TrimSpace(s)) == NonSpace(s)
  {
    var a, b := TrimSpaceShape(s);
    NonSpaceAppend(a + TrimSpace(s), b);
    NonSpaceAppend(a, TrimSpace(s));
    NonSpaceOfSpace(a);
    NonSpaceOfSpace(b);
  }

  lemma {:induction false} SubsequenceConcat(a: string, b: string, c: string, d: string)
    requires Subsequence(a, b) && Subsequence(c, d)
    ensures Subsequence(a + c, b + d)
  {
    if b == "" {
      assert a + c == c && b + d == d;
    } else {
      assert (b + d)[1..] == b[1..] + d;
      if a != "" && a[0] == b[0] && Subsequence(a[1..], b[1..]) {
        SubsequenceConcat(a[1..], b[1..], c, d);
        assert (a + c)[1..] == a[1..] + c;
      } else {
        assert Subsequence(a, b[1..]) by { if a == "" { assert Subsequence(a, b[1..]); } }
        SubsequenceConcat(a, b[1..], c, d);
        SubsequenceWeaken(a + c, b[1..] + d, b[0]);
        assert [b[0]] + (b[1..] + d) == b + d;
      }
    }
  }

  lemma {:induction false} SubsequenceWeaken(t: string, s: string, c: char)
    requires Subsequence(t, s)
    ensures Subsequence(t, [c] + s)
  {
    assert ([c] + s)[1..] == s;
  }

  lemma Surrounded(v: string, a: string, s: string, b: string)
    requires v == s || Subsequence(v, s)
    ensures Subsequence(v, a + s + b)
  {
    if v == s { SubsequenceSelf(s); }
    SubsequenceConcat("", a, v, s);
    assert "" + v == v && v + "" == v;
    SubsequenceConcat(v, a + s, "", b);
  }

  lemma UnixLinesKeeps(s: string)
    ensures NonSpace(UnixLines(s)) == NonSpace(s)
  {
    ReplaceKeeps(s, "\r\n", "\n");
    ReplaceKeeps(ReplaceAll(s, "\r\n", "\n"), "\r", "\n");
  }

  /** The Markdown and PDF clean-ups change white space only. */
  lemma CleaningLosesNoText(s: string)
    ensures NonSpace(MarkdownText(s)) == NonSpace(s)
    ensures NonSpace(PdfText(s)) == NonSpace(s)
  {
    var u := UnixLines(s);
    UnixLinesKeeps(s);
    CapKeeps(u, '\n', 2, 0);
    TrimKeeps(CapRuns(u, '\n', 2));
    CapKeeps(u, ' ', 1, 0);
    CapKeeps(CapRuns(u, ' ', 1), '\n', 2, 0);
    TrimKeeps(CapRuns(CapRuns(u, ' ', 1), '\n', 2));
  }
}
