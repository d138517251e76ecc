/** The operations on Go strings that the repository's text code relies on, over
    sequences of characters (Go runes). Each is defined by structural recursion,
    and the lemmas are the laws the normalisers, the path filter and the scope
    lists rest on. */
module Text {

  /** `strings.Contains`. */
  predicate Contains(s: string, p: string) {
    p <= s || (s != "" && Contains(s[1..], p))
  }

  /** `strings.Index`: the least position of `p`, or -1. */
  function Index(s: string, p: string): (i: int)
    ensures i == -1 <==> !Contains(s, p)
    ensures i != -1 ==> 0 <= i && i + |p| <= |s| && s[i..i + |p|] == p
  {
    if p <= s then 0
    else if s == "" then -1
    else
      var i := Index(s[1..], p);
      if i == -1 then -1 else i + 1
  }

  /** `strings.ReplaceAll` for a non-empty pattern: left to right, not overlapping. */
  function ReplaceAll(s: string, old_: string, new_: string): string
    requires old_ != ""
    decreases |s|
  {
    if s == "" then ""
    else if old_ <= s then new_ + ReplaceAll(s[|old_|..], old_, new_)
    else [s[0]] + ReplaceAll(s[1..], old_, new_)
  }

  /** `unicode.IsSpace`. */
  predicate IsSpace(c: char) {
    || c in {'\t', '\n', '\U{0B}', '\U{0C}', '\r', ' ', '\U{85}', '\U{A0}', '\U{1680}'}
    || '\U{2000}' <= c <= '\U{200A}'
    || c in {'\U{2028}', '\U{2029}', '\U{202F}', '\U{205F}', '\U{3000}'}
  }

  function TrimLeft(s: string, cut: char -> bool): (r: string)
    ensures |r| <= |s| && s[|s| - |r|..] == r
    ensures forall c :: c in s[..|s| - |r|] ==> cut(c)
    ensures r != "" ==> !cut(r[0])
  {
    if s != "" && cut(s[0]) then TrimLeft(s[1..], cut) else s
  }

  function TrimRight(s: string, cut: char -> bool): (r: string)
    ensures |r| <= |s| && s[..|r|] == r
    ensures forall c :: c in s[|r|..] ==> cut(c)
    ensures r != "" ==> !cut(r[|r| - 1])
  {
    if s != "" && cut(s[|s| - 1]) then TrimRight(s[..|s| - 1], cut) else s
  }

  /** `strings.TrimSpace`. */
  function TrimSpace(s: string): string {
    TrimRight(TrimLeft(s, IsSpace), IsSpace)
  }

  /** No white space at either end. */
  predicate Trimmed(s: string) {
    s != "" ==> !IsSpace(s[0]) && !IsSpace(s[|s| - 1])
  }

  /** TrimSpace cuts `s` to a middle part; what it cuts is white space only, and
      nothing is cut exactly when both ends are already clean. */
  lemma TrimSpaceShape(s: string) returns (a: string, b: string)
    ensures s == a + TrimSpace(s) + b
    ensures forall c :: c in a || c in b ==> IsSpace(c)
    ensures Trimmed(TrimSpace(s))
    ensures TrimSpace(s) == s <==> Trimmed(s)
  {
    a, b := TrimShape(s, IsSpace);
  }

  lemma TrimShape(s: string, cut: char -> bool) returns (a: string, b: string)
    ensures s == a + TrimRight(TrimLeft(s, cut), cut) + b
    ensures forall c :: c in a || c in b ==> cut(c)
    ensures var t := TrimRight(TrimLeft(s, cut), cut);
            && (t != "" ==> !cut(t[0]) && !cut(t[|t| - 1]))
            && (t == s <==> (s != "" ==> !cut(s[0]) && !cut(s[|s| - 1])))
  {
    var l := TrimLeft(s, cut);
    var r := TrimRight(l, cut);
    a, b := s[..|s| - |l|], l[|r|..];
    Cuts(s, a, l, b, r, cut);
  }

  lemma Cuts(s: string, a: string, l: string, b: string, r: string, cut: char -> bool)
    requires |l| <= |s| && a == s[..|s| - |l|] && l == s[|s| - |l|..] && |r| <= |l| && r == l[..|r|] && b == l[|r|..]
    requires forall c :: c in a || c in b ==> cut(c)
    requires (l != "" ==> !cut(l[0])) && (r != "" ==> !cut(r[|r| - 1]))
    ensures s == a + r + b && (r != "" ==> !cut(r[0]))
    ensures r == s <==> (s != "" ==> !cut(s[0]) && !cut(s[|s| - 1]))
  {
    assert l == r + b;
    assert r != "" ==> r[0] == l[0];
    assert |l| < |s| ==> s[0] in a;
    assert l == s && |r| < |s| ==> s[|s| - 1] in b;
  }

  function Repeat(c: char, n: nat): (r: string)
    ensures |r| == n && forall i :: 0 <= i < n ==> r[i] == c
  {
    seq(n, _ => c)
  }

  // ---- occurrences -------------------------------------------------------

  /** Contains, stated by position. */
  lemma {:induction false} ContainsAt(s: string, p: string)
    ensures Contains(s, p) <==> exists i :: 0 <= i <= |s| && p <= s[i..]
  {
    if p <= s {
      assert p <= s[0..];
    } else if s != "" {
      ContainsAt(s[1..], p);
      if Contains(s[1..], p) {
        var i :| 0 <= i <= |s[1..]| && p <= s[1..][i..];
        assert s[1..][i..] == s[i + 1..];
      }
      forall i | 0 <= i <= |s| && p <= s[i..] ensures Contains(s, p) {
        if i > 0 { assert s[1..][i - 1..] == s[i..]; }
      }
    }
  }

  /** A part of a string contains no more than the whole. */
  lemma {:induction false} ContainsInMiddle(a: string, s: string, b: string, p: string)
    requires Contains(s, p)
    ensures Contains(a + s + b, p)
  {
    ContainsAt(s, p);
    var i :| 0 <= i <= |s| && p <= s[i..];
    assert (a + s + b)[|a| + i..] == s[i..] + b;
    ContainsAt(a + s + b, p);
  }

  // ---- replacement -------------------------------------------------------

  /** Replacing a pattern that does not occur changes nothing. */
  lemma {:induction false} ReplaceAbsent(s: string, p: string, q: string)
    requires p != "" && !Contains(s, p)
    ensures ReplaceAll(s, p, q) == s
  {
    if s != "" { ReplaceAbsent(s[1..], p, q); }
  }

  /** Replacing a pattern by itself changes nothing. */
  lemma {:induction false} ReplaceBySelf(s: string, p: string)
    requires p != ""
    ensures ReplaceAll(s, p, p) == s
    decreases |s|
  {
    if s == "" {
    } else if p <= s {
      ReplaceBySelf(s[|p|..], p);
      assert s == p + s[|p|..];
    } else {
      ReplaceBySelf(s[1..], p);
    }
  }

  /** A present pattern that is longer than its replacement makes the string shorter. */
  lemma {:induction false} ReplaceShrinks(s: string, p: string, q: string)
    requires |q| < |p|
    ensures |ReplaceAll(s, p, q)| <= |s|
    ensures Contains(s, p) ==> |ReplaceAll(s, p, q)| < |s|
    decreases |s|
  {
    if s == "" {
    } else if p <= s {
      ReplaceShrinks(s[|p|..], p, q);
    } else {
      ReplaceShrinks(s[1..], p, q);
    }
  }

  /** Replacing a single character leaves none of it behind. */
  lemma {:induction false} ReplaceCharGone(s: string, c: char, q: string)
    requires c !in q
    ensures c !in ReplaceAll(s, [c], q)
  {
    if s != "" {
      ReplaceCharGone(s[1..], c, q);
      if [c] <= s { assert s[|[c]|..] == s[1..]; }
    }
  }

  /** Every character of a pattern that occurs is in the string. */
  lemma PatternChars(s: string, p: string)
    ensures Contains(s, p) ==> forall c :: c in p ==> c in s
  {
    ContainsAt(s, p);
    if Contains(s, p) {
      var i :| 0 <= i <= |s| && p <= s[i..];
      assert s == s[..i] + p + s[i + |p|..];
    }
  }

  /** Line endings as the normalisers rewrite them: CRLF, then lone CR, to LF. */
  function UnixLines(s: string): string {
    ReplaceAll(ReplaceAll(s, "\r\n", "\n"), "\r", "\n")
  }

  /** After the rewriting no carriage return is left, and text without one is untouched. */
  lemma UnixLinesClean(s: string)
    ensures '\r' !in UnixLines(s)
    ensures '\r' !in s ==> UnixLines(s) == s
  {
    ReplaceCharGone(ReplaceAll(s, "\r\n", "\n"), '\r', "\n");
    if '\r' !in s {
      PatternChars(s, "\r\n");
      ReplaceAbsent(s, "\r\n", "\n");
      PatternChars(s, "\r");
      ReplaceAbsent(s, "\r", "\n");
    }
  }

  // ---- splitting at a character ------------------------------------------

  /** `strings.Split` at one character: always at least one part. */
  function Split(s: string, d: char): (parts: seq<string>)
    ensures |parts| >= 1
  {
    if s == "" then [""]
    else if s[0] == d then [""] + Split(s[1..], d)
    else
      var rest := Split(s[1..], d);
      [[s[0]] + rest[0]] + rest[1..]
  }

  /** `strings.Join` with a one-character separator. */
  function Join(parts: seq<string>, d: char): string {
    if parts == [] then ""
    else if |parts| == 1 then parts[0]
    else parts[0] + [d] + Join(parts[1..], d)
  }

  /** Joining undoes splitting, and no part holds the separator. */
  lemma {:induction false} JoinSplit(s: string, d: char)
    ensures Join(Split(s, d), d) == s
    ensures forall p :: p in Split(s, d) ==> d !in p
  {
    if s != "" {
      JoinSplit(s[1..], d);
      var rest := Split(s[1..], d);
      if s[0] == d {
        JoinEmptyFirst(rest, d);
      } else {
        JoinLongerFirst(s[0], rest, d);
        forall p | p in [[s[0]] + rest[0]] + rest[1..] ensures d !in p {
          assert p == [s[0]] + rest[0] || p in rest;
        }
      }
      assert s == [s[0]] + s[1..];
    }
  }

  lemma {:induction false} JoinEmptyFirst(rest: seq<string>, d: char)
    requires rest != []
    ensures Join([""] + rest, d) == [d] + Join(rest, d)
  {
    assert ([""] + rest)[1..] == rest;
  }

  lemma {:induction false} JoinLongerFirst(c: char, rest: seq<string>, d: char)
    requires rest != []
    ensures Join([[c] + rest[0]] + rest[1..], d) == [c] + Join(rest, d)
  {
    var parts := [[c] + rest[0]] + rest[1..];
    assert parts[1..] == rest[1..];
    if |rest| > 1 {
      assert Join(parts, d) == [c] + (rest[0] + [d] + Join(rest[1..], d));
    }
  }

  lemma {:induction false} SplitPlain(s: string, d: char)
    requires d !in s
    ensures Split(s, d) == [s]
  {
    if s != "" {
      SplitPlain(s[1..], d);
      assert s == [s[0]] + s[1..];
    }
  }

  /** A separator in the middle splits the parts into two groups. */
  lemma {:induction false} SplitAtDelim(a: string, b: string, d: char)
    ensures Split(a + [d] + b, d) == Split(a, d) + Split(b, d)
  {
    var s := a + [d] + b;
    if a == "" {
      assert s[1..] == b;
    } else {
      assert s[1..] == a[1..] + [d] + b;
      SplitAtDelim(a[1..], b, d);
    }
  }

  /** Joining two groups of parts puts one separator between the two texts. */
  lemma {:induction false} JoinAppend(xs: seq<string>, ys: seq<string>, d: char)
    requires xs != [] && ys != []
    ensures Join(xs + ys, d) == Join(xs, d) + [d] + Join(ys, d)
  {
    if |xs| == 1 {
      assert (xs + ys)[1..] == ys;
    } else {
      assert (xs + ys)[1..] == xs[1..] + ys;
      JoinAppend(xs[1..], ys, d);
      assert Join(xs + ys, d) == xs[0] + [d] + (Join(xs[1..], d) + [d] + Join(ys, d));
    }
  }

  // ---- splitting into words ----------------------------------------------

  /** The maximal runs of characters that are not separators: `strings.Fields`
      when `sep` is IsSpace. */
  function Words(s: string, sep: char -> bool): seq<string>
    decreases |s|
  {
    if s == "" then []
    else if sep(s[0]) then Words(s[1..], sep)
    else
      var w := FirstWord(s, sep);
      [w] + Words(s[|w|..], sep)
  }

  /** The longest separator-free prefix. */
  function FirstWord(s: string, sep: char -> bool): (w: string)
    ensures w <= s && forall c :: c in w ==> !sep(c)
    ensures |w| < |s| ==> sep(s[|w|])
    ensures s != "" && !sep(s[0]) ==> w != ""
  {
    if s == "" || sep(s[0]) then "" else [s[0]] + FirstWord(s[1..], sep)
  }

  predicate IsWord(w: string, sep: char -> bool) {
    w != "" && forall c :: c in w ==> !sep(c)
  }

  predicate AllWords(ws: seq<string>, sep: char -> bool) {
    forall w :: w in ws ==> IsWord(w, sep)
  }

  /** `strings.Fields`. */
  function Fields(s: string): seq<string> {
    Words(s, IsSpace)
  }

  lemma {:induction false} WordsAreWords(s: string, sep: char -> bool)
    ensures AllWords(Words(s, sep), sep)
    decreases |s|
  {
    if s == "" {
    } else if sep(s[0]) {
      WordsAreWords(s[1..], sep);
    } else {
      WordsAreWords(s[|FirstWord(s, sep)|..], sep);
    }
  }

  lemma {:induction false} FirstWordThen(w: string, rest: string, sep: char -> bool)
    requires forall c :: c in w ==> !sep(c)
    requires rest != "" ==> sep(rest[0])
    ensures FirstWord(w + rest, sep) == w
  {
    if w == "" {
      assert w + rest == rest;
    } else {
      assert (w + rest)[1..] == w[1..] + rest;
      FirstWordThen(w[1..], rest, sep);
    }
  }

  /** Splitting into words undoes joining with a separator exactly when every
      item is a non-empty word. */
  lemma {:induction false} WordsOfJoin(ws: seq<string>, d: char, sep: char -> bool)
    requires sep(d)
    ensures Words(Join(ws, d), sep) == ws <==> AllWords(ws, sep)
  {
    WordsAreWords(Join(ws, d), sep);
    if AllWords(ws, sep) { WordsUndoJoin(ws, d, sep); }
  }

  lemma {:induction false} WordsUndoJoin(ws: seq<string>, d: char, sep: char -> bool)
    requires sep(d) && AllWords(ws, sep)
    ensures Words(Join(ws, d), sep) == ws
  {
    if |ws| == 1 {
      assert IsWord(ws[0], sep);
      WordsAfterFirst(ws[0], "", sep);
      assert ws[0] + "" == ws[0] && ws == [ws[0]];
    } else if |ws| > 1 {
      var rest := ws[1..];
      assert IsWord(ws[0], sep) && forall w :: w in rest ==> w in ws;
      WordsUndoJoin(rest, d, sep);
      WordsOfTwo(ws[0], Join(rest, d), d, sep);
      assert ws == [ws[0]] + rest;
    }
  }

  /** A word, a separator and more. */
  lemma {:induction false} WordsOfTwo(w: string, rest: string, d: char, sep: char -> bool)
    requires sep(d) && IsWord(w, sep)
    ensures Words(w + [d] + rest, sep) == [w] + Words(rest, sep)
  {
    WordsAfterFirst(w, [d] + rest, sep);
    WordsSkip(d, rest, sep);
    assert w + [d] + rest == w + ([d] + rest);
  }

  lemma {:induction false} WordsAfterFirst(w: string, rest: string, sep: char -> bool)
    requires IsWord(w, sep) && (rest != "" ==> sep(rest[0]))
    ensures Words(w + rest, sep) == [w] + Words(rest, sep)
  {
    FirstWordThen(w, rest, sep);
    assert (w + rest)[0] == w[0] && (w + rest)[|w|..] == rest;
  }

  lemma {:induction false} WordsSkip(d: char, rest: string, sep: char -> bool)
    requires sep(d)
    ensures Words([d] + rest, sep) == Words(rest, sep)
  {
    assert ([d] + rest)[1..] == rest;
  }
}
