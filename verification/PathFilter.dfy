/** The content filter: path patterns matched by byte loops, MIME patterns, and
    the decision whether to fetch. The loops are proved against the '/'-separated
    components of the path. */
module PathFilter {
  import opened Text
  import opened Wrappers

  // ---- path patterns -----------------------------------------------------

  /** The components `ps` stand next to each other in `cs`, not reaching its last one. */
  ghost predicate ComponentsOccur(ps: seq<string>, cs: seq<string>) {
    exists k :: PartsAt(ps, cs, k)
  }

  predicate PartsAt(ps: seq<string>, cs: seq<string>, k: int) {
    0 <= k && k + |ps| < |cs| && cs[k..k + |ps|] == ps
  }

  predicate IsFolderPattern(pattern: string) {
    pattern != "" && pattern[|pattern| - 1] == '/'
  }

  /** The part of the path after its last '/'. */
  function FileName(path: string): string {
    var cs := Split(path, '/');
    cs[|cs| - 1]
  }

  predicate HasSuffix(s: string, suffix: string) {
    |s| >= |suffix| && s[|s| - |suffix|..] == suffix
  }

  /** What a pattern means: a folder pattern names components above the last, any
      other pattern names the file, outright or by its extension. */
  ghost predicate Matches(path: string, pattern: string) {
    if IsFolderPattern(pattern) then
      ComponentsOccur(Split(pattern[..|pattern| - 1], '/'), Split(path, '/'))
    else
      || FileName(path) == pattern
      || (|pattern| > 2 && "*." <= pattern && HasSuffix(FileName(path), pattern[1..]))
  }

  /** `pattern` stands in `path` at `i`, at the start or after a '/'. */
  predicate StandsAt(path: string, pattern: string, i: int) {
    0 <= i <= |path| && pattern <= path[i..] && (i == 0 || path[i - 1] == '/')
  }

  lemma PartsStand(us: seq<string>, ps: seq<string>, rest: seq<string>)
    requires rest != []
    ensures PartsAt(ps, us + (ps + rest), |us|)
  {
  }

  /** A folder that stands at the start, or after some upper path `u`. */
  lemma FolderSplits(q: string, rest: string, u: string)
    ensures ComponentsOccur(Split(q, '/'), Split(q + ['/'] + rest, '/'))
    ensures ComponentsOccur(Split(q, '/'), Split(u + ['/'] + (q + ['/'] + rest), '/'))
  {
    var ps, us := Split(q, '/'), Split(u, '/');
    SplitAtDelim(q, rest, '/');
    SplitAtDelim(u, q + ['/'] + rest, '/');
    PartsStand([], ps, Split(rest, '/'));
    PartsStand(us, ps, Split(rest, '/'));
    assert [] + (ps + Split(rest, '/')) == ps + Split(rest, '/');
  }

  /** Components that occur in a path stand in it as text. */
  lemma ComponentsStand(path: string, q: string)
    requires ComponentsOccur(Split(q, '/'), Split(path, '/'))
    ensures exists i :: StandsAt(path, q + ['/'], i)
  {
    var ps, cs := Split(q, '/'), Split(path, '/');
    var k :| PartsAt(ps, cs, k);
    var above, below := cs[..k], cs[k + |ps|..];
    assert cs == above + (ps + below);
    JoinSplit(path, '/');
    JoinSplit(q, '/');
    JoinAppend(ps, below, '/');
    var tail := q + ['/'] + Join(below, '/');
    if k == 0 {
      assert cs == ps + below;
      assert path[0..] == tail;
      assert StandsAt(path, q + ['/'], 0);
    } else {
      JoinAppend(above, ps + below, '/');
      var u := Join(above, '/');
      assert path == u + ['/'] + tail;
      assert path[|u| + 1..] == tail;
      assert StandsAt(path, q + ['/'], |u| + 1);
    }
  }

  /** A folder pattern stands somewhere at the start of a component iff its
      components occur above the last component of the path. */
  lemma FolderMeaning(path: string, pattern: string)
    requires IsFolderPattern(pattern)
    ensures (exists i :: StandsAt(path, pattern, i))
       <==> ComponentsOccur(Split(pattern[..|pattern| - 1], '/'), Split(path, '/'))
  {
    var q := pattern[..|pattern| - 1];
    assert pattern == q + ['/'];
    if i :| StandsAt(path, pattern, i) {
      var rest := path[i + |pattern|..];
      var tail := q + ['/'] + rest;
      assert path[i..] == tail;
      if i == 0 {
        assert path == tail;
        FolderSplits(q, rest, "");
      } else {
        assert path == path[..i - 1] + ['/'] + tail;
        FolderSplits(q, rest, path[..i - 1]);
      }
    }
    if ComponentsOccur(Split(q, '/'), Split(path, '/')) {
      ComponentsStand(path, q);
    }
  }

  /** The pattern "name/", for a name without '/', matches exactly the paths that
      have the name as a component other than the last. */
  lemma FolderNamePattern(path: string, name: string)
    requires '/' !in name
    ensures Matches(path, name + "/") <==> exists k :: 0 <= k < |Split(path, '/')| - 1 && Split(path, '/')[k] == name
  {
    FolderMatches(path, name);
    SplitPlain(name, '/');
    NameOccurs(name, Split(path, '/'));
  }

  lemma FolderMatches(path: string, q: string)
    ensures Matches(path, q + "/") <==> ComponentsOccur(Split(q, '/'), Split(path, '/'))
  {
    var pattern := q + "/";
    assert |pattern| == |q| + 1 && pattern[|q|] == '/' && pattern[..|q|] == q;
  }

  lemma NameOccurs(name: string, cs: seq<string>)
    ensures ComponentsOccur([name], cs) <==> exists k :: 0 <= k < |cs| - 1 && cs[k] == name
  {
    forall k ensures PartsAt([name], cs, k) <==> 0 <= k < |cs| - 1 && cs[k] == name {
      assert 0 <= k < |cs| - 1 ==> cs[k..k + 1] == [cs[k]];
    }
    if k :| 0 <= k < |cs| - 1 && cs[k] == name {
      assert PartsAt([name], cs, k);
    }
  }

  /** The pattern "*.ext", for an extension without '/', matches exactly the paths that
      end in it, its dot included. */
  lemma ExtensionMeaning(path: string, ext: string)
    requires '/' !in ext && ext != ""
    ensures Matches(path, "*." + ext) <==> exists stem :: path == stem + "." + ext
  {
    var pattern, suffix := "*." + ext, "." + ext;
    assert pattern[1..] == suffix && !IsFolderPattern(pattern) && "*." <= pattern;
    SuffixOfName(path, suffix);
    if HasSuffix(path, suffix) { assert path == path[..|path| - |suffix|] + "." + ext; }
    if stem :| path == stem + "." + ext { assert path[|stem|..] == suffix; }
    if FileName(path) == pattern { assert FileName(path)[1..] == suffix; }
  }

  /** A suffix without '/' is one of the path exactly when it is one of its last part. */
  lemma SuffixOfName(path: string, suffix: string)
    requires '/' !in suffix
    ensures HasSuffix(FileName(path), suffix) <==> HasSuffix(path, suffix)
  {
    var u, f := LastPart(path);
    if path != f && HasSuffix(path, suffix) && |suffix| > |f| {
      LongSuffixHasSlash(path, u, f, suffix);
    }
  }

  lemma LongSuffixHasSlash(path: string, u: string, f: string, suffix: string)
    requires path == u + ['/'] + f && HasSuffix(path, suffix) && |suffix| > |f|
    ensures '/' in suffix
  {
    assert suffix[|suffix| - |f| - 1] == path[|u|];
  }

  /** The path is its last part, alone or after some upper path and a '/'. */
  lemma LastPart(path: string) returns (u: string, f: string)
    ensures f == FileName(path) && '/' !in f && (path == f || path == u + ['/'] + f)
  {
    var cs := Split(path, '/');
    JoinSplit(path, '/');
    f := cs[|cs| - 1];
    assert f in cs;
    if |cs| == 1 {
      u := "";
    } else {
      u := Join(cs[..|cs| - 1], '/');
      JoinAppend(cs[..|cs| - 1], [f], '/');
      assert cs == cs[..|cs| - 1] + [f];
    }
  }

  /** Any other pattern without '/' matches exactly the file of that name, at the top or
      under some folder; "*." without an extension is such a name. */
  lemma NameMeaning(path: string, name: string)
    requires '/' !in name && (!("*." <= name) || name == "*.")
    ensures Matches(path, name) <==> path == name || exists u :: path == u + "/" + name
  {
    assert !IsFolderPattern(name);
    var u, f := LastPart(path);
    if path != f { assert path == u + "/" + f; }
    if path == name { FileNameOf("", name); }
    if v :| path == v + "/" + name { FileNameOf(v, name); }
  }

  lemma FileNameOf(u: string, f: string)
    requires '/' !in f
    ensures FileName(f) == f && FileName(u + ['/'] + f) == f
  {
    SplitPlain(f, '/');
    SplitAtDelim(u, f, '/');
  }

  /** Cutting at the last '/' yields the last component. */
  lemma LastComponent(path: string, lastSlash: int)
    requires -1 <= lastSlash < |path|
    requires lastSlash >= 0 ==> path[lastSlash] == '/'
    requires forall j :: lastSlash < j < |path| ==> path[j] != '/'
    ensures FileName(path) == path[lastSlash + 1..]
  {
    var f := path[lastSlash + 1..];
    var u := if lastSlash < 0 then "" else path[..lastSlash];
    FileNameOf(u, f);
    assert path == if lastSlash < 0 then f else u + ['/'] + f;
  }

  /** matchPattern, loop by loop. */
  method MatchPattern(path: string, pattern: string) returns (m: bool)
    ensures m <==> Matches(path, pattern)
  {
    if |pattern| > 0 && pattern[|pattern| - 1] == '/' {
      FolderMeaning(path, pattern);
      m := MatchFolder(path, pattern);
      return;
    }
    var filename := CutFileName(path);
    if filename == pattern {
      return true;
    }
    if |pattern| > 2 && pattern[0] == '*' && pattern[1] == '.' {
      var ext := pattern[1..];
      if |filename| >= |ext| && filename[|filename| - |ext|..] == ext {
        return true;
      }
    }
    return false;
  }

  /** The folder branch: a prefix test and a scan for "/pattern". */
  method MatchFolder(path: string, pattern: string) returns (m: bool)
    requires pattern != ""
    ensures m <==> exists i :: StandsAt(path, pattern, i)
  {
    if |path| >= |pattern| && path[..|pattern|] == pattern {
      assert path[0..] == path && StandsAt(path, pattern, 0);
      return true;
    }
    assert !StandsAt(path, pattern, 0);
    if |path| > |pattern| {
      for i := 0 to |path| - |pattern|
        invariant forall j :: 0 <= j <= i ==> !StandsAt(path, pattern, j)
      {
        assert path[i + 1..i + 1 + |pattern|] == path[i + 1..][..|pattern|];
        if path[i] == '/' && path[i + 1..i + 1 + |pattern|] == pattern {
          assert StandsAt(path, pattern, i + 1);
          return true;
        }
      }
    }
    return false;
  }

  /** The backwards scan for the last '/'. */
  method CutFileName(path: string) returns (filename: string)
    ensures filename == FileName(path)
  {
    var lastSlash := -1;
    var i := |path| - 1;
    while i >= 0
      invariant -1 <= i < |path| && lastSlash == -1
      invariant forall j :: i < j < |path| ==> path[j] != '/'
    {
      if path[i] == '/' {
        lastSlash := i;
        break;
      }
      i := i - 1;
    }
    filename := path;
    if lastSlash >= 0 {
      filename := path[lastSlash + 1..];
    }
    assert filename == path[lastSlash + 1..];
    LastComponent(path, lastSlash);
  }

  /** matchesExclusionPattern. */
  method MatchesExclusionPattern(path: string, patterns: seq<string>) returns (m: bool)
    ensures m <==> exists p :: p in patterns && Matches(path, p)
  {
    for i := 0 to |patterns|
      invariant forall j :: 0 <= j < i ==> !Matches(path, patterns[j])
    {
      var hit := MatchPattern(path, patterns[i]);
      if hit {
        return true;
      }
    }
    return false;
  }

  // ---- MIME patterns -----------------------------------------------------

  /** MatchesMimePattern, with `strings.ToLower` as a parameter. */
  predicate MatchesMime(mimeType: string, pattern: string, lower: string -> string) {
    && mimeType != ""
    && pattern != ""
    && var m, p := lower(TrimSpace(mimeType)), lower(TrimSpace(pattern));
       || m == p
       || (HasSuffix(p, "/*") && p[..|p| - 1] <= m)
  }

  /** A wildcard on a type without '/', matches exactly the names whose first
      '/'-component is the type and that have a second one. */
  lemma WildcardMeaning(mimeType: string, pattern: string, lower: string -> string, top: string)
    requires mimeType != "" && pattern != ""
    requires '/' !in top && lower(TrimSpace(pattern)) == top + "/*"
    ensures var cs := Split(lower(TrimSpace(mimeType)), '/');
            MatchesMime(mimeType, pattern, lower) <==> |cs| > 1 && cs[0] == top
  {
    var m := lower(TrimSpace(mimeType));
    var p := top + "/*";
    var cs := Split(m, '/');
    assert p[..|p| - 1] == top + "/";
    SplitPlain(top, '/');
    if top + "/" <= m {
      var rest := m[|top| + 1..];
      assert m == top + "/" + rest;
      SplitAtDelim(top, rest, '/');
    }
    if m == p {
      assert top + "/" <= m;
    }
    if |cs| > 1 && cs[0] == top {
      JoinSplit(m, '/');
      assert m == top + "/" + Join(cs[1..], '/');
    }
  }

  /** A MIME pattern that is no wildcard matches exactly the type itself, in whatever
      case and with whatever white space around. */
  lemma PlainMimeMeaning(mimeType: string, pattern: string, lower: string -> string)
    requires !HasSuffix(lower(TrimSpace(pattern)), "/*")
    ensures MatchesMime(mimeType, pattern, lower) <==>
              mimeType != "" && pattern != "" && lower(TrimSpace(mimeType)) == lower(TrimSpace(pattern))
  {
  }

  predicate ExcludesMime(mimeType: string, patterns: seq<string>, lower: string -> string) {
    mimeType != "" && exists p :: p in patterns && MatchesMime(mimeType, p, lower)
  }

  /** ShouldExcludeMimeType. */
  method ShouldExcludeMimeType(mimeType: string, patterns: seq<string>, lower: string -> string) returns (r: bool)
    ensures r <==> ExcludesMime(mimeType, patterns, lower)
  {
    if mimeType == "" || |patterns| == 0 {
      return false;
    }
    for i := 0 to |patterns|
      invariant forall j :: 0 <= j < i ==> !MatchesMime(mimeType, patterns[j], lower)
    {
      if MatchesMime(mimeType, patterns[i], lower) {
        return true;
      }
    }
    return false;
  }

  // ---- the decision ------------------------------------------------------

  datatype Exclusions = Exclusions(
    enabledPatterns: seq<string>,
    disabledPatterns: seq<string>,
    customPatterns: seq<string>,
    mimeExclusions: seq<string>)

  function ActivePatterns(s: Exclusions): seq<string> {
    s.enabledPatterns + s.customPatterns
  }

  /** Some active path pattern or MIME pattern of the settings hits the file. */
  ghost predicate Excluded(path: string, mimeType: string, s: Exclusions, lower: string -> string) {
    || (exists p :: p in ActivePatterns(s) && Matches(path, p))
    || ExcludesMime(mimeType, s.mimeExclusions, lower)
  }

  /** ShouldFetchContent: false exactly when some active pattern hits. */
  method ShouldFetchContent(path: string, settings: Option<Exclusions>, mimeOf: string -> string,
                            lower: string -> string)
    returns (shouldFetch: bool, mimeType: string)
    ensures mimeType == mimeOf(path)
    ensures shouldFetch <==> settings.None? || !Excluded(path, mimeOf(path), settings.value, lower)
  {
    mimeType := mimeOf(path);
    if settings.None? {
      return true, mimeType;
    }
    var s := settings.value;
    if |s.enabledPatterns| > 0 || |s.customPatterns| > 0 {
      var hit := MatchesExclusionPattern(path, ActivePatterns(s));
      if hit {
        return false, mimeType;
      }
    }
    if |s.mimeExclusions| > 0 {
      var hit := ShouldExcludeMimeType(mimeType, s.mimeExclusions, lower);
      if hit {
        return false, mimeType;
      }
    }
    return true, mimeType;
  }

  predicate Extends(s: Exclusions, t: Exclusions) {
    && (forall p :: p in s.enabledPatterns + s.customPatterns ==> p in t.enabledPatterns + t.customPatterns)
    && (forall p :: p in s.mimeExclusions ==> p in t.mimeExclusions)
  }

  /** Adding patterns, in whatever list and order, only ever excludes more; and
      toggled-off patterns play no part. */
  lemma MorePatternsExcludeMore(path: string, mimeType: string, s: Exclusions, t: Exclusions, lower: string -> string)
    requires Extends(s, t)
    ensures Excluded(path, mimeType, s, lower) ==> Excluded(path, mimeType, t, lower)
    ensures Excluded(path, mimeType, s.(disabledPatterns := t.disabledPatterns), lower) <==>
              Excluded(path, mimeType, s, lower)
  {
    var s' := s.(disabledPatterns := t.disabledPatterns);
    assert ActivePatterns(s') == ActivePatterns(s);
    assert forall p :: p in ActivePatterns(s) ==> p in ActivePatterns(t);
  }
}
