/**
 * The pure string helpers of the crawler (HomeTest/scripts/data-crawl.py):
 * `slugify` (line 39-40) and the whitespace normalisation of line 168.
 *
 * Both are "replace every maximal run of a character class by one character,
 * then strip a set of characters from both ends".  `ReplaceRuns` models
 * `re.sub(r'[class]+', rep, s)` and `Strip` models `str.strip`.
 */
module Text {

  // ---------------------------------------------------------------------------
  // Character classes
  // ---------------------------------------------------------------------------

  /** Python's `str.isspace()`, which is also what `\s` matches in a `str` pattern. */
  predicate IsSpace(c: char) {
    || c == ' '
    || ('\t' <= c <= '\r')
    || ('\U{1C}' <= c <= '\U{1F}')
    || c == '\U{85}' || c == '\U{A0}' || c == '\U{1680}'
    || ('\U{2000}' <= c <= '\U{200A}')
    || c == '\U{2028}' || c == '\U{2029}' || c == '\U{202F}' || c == '\U{205F}'
    || c == '\U{3000}'
  }

  /** The characters `[a-z0-9]` that a slug keeps. */
  predicate IsSlugChar(c: char) {
    ('a' <= c <= 'z') || ('0' <= c <= '9')
  }

  /** The class `[^a-z0-9]` whose runs `slugify` replaces. */
  predicate NotSlugChar(c: char) {
    !IsSlugChar(c)
  }

  predicate IsDash(c: char) {
    c == '-'
  }

  /** `str.lower()` restricted to ASCII letters. */
  function LowerChar(c: char): (r: char)
    ensures 'A' <= c <= 'Z' ==> 'a' <= r <= 'z' && r as int == c as int + 32
    ensures !('A' <= c <= 'Z') ==> r == c
  {
    if 'A' <= c <= 'Z' then (c as int - 'A' as int + 'a' as int) as char else c
  }

  function Lower(s: string): (r: string)
    ensures |r| == |s|
    ensures forall i :: 0 <= i < |s| ==> r[i] == LowerChar(s[i])
  {
    seq(|s|, i requires 0 <= i < |s| => LowerChar(s[i]))
  }

  // ---------------------------------------------------------------------------
  // The two building blocks
  // ---------------------------------------------------------------------------

  /** `s` without its leading characters that satisfy `p`. */
  function DropWhile(s: string, p: char -> bool): (r: string)
    ensures |r| <= |s|
  {
    if s == [] || !p(s[0]) then s else DropWhile(s[1..], p)
  }

  lemma {:induction false} DropWhileFacts(s: string, p: char -> bool)
    ensures var r := DropWhile(s, p);
      && r == s[|s| - |r|..]
      && (r == [] || !p(r[0]))
      && (forall i :: 0 <= i < |s| - |r| ==> p(s[i]))
  {
    if s != [] && p(s[0]) {
      DropWhileFacts(s[1..], p);
    }
  }

  /** `s` without its trailing characters that satisfy `p`. */
  function DropWhileEnd(s: string, p: char -> bool): (r: string)
    ensures |r| <= |s|
  {
    if s == [] || !p(s[|s| - 1]) then s else DropWhileEnd(s[..|s| - 1], p)
  }

  lemma {:induction false} DropWhileEndFacts(s: string, p: char -> bool)
    ensures var r := DropWhileEnd(s, p);
      && r == s[..|r|]
      && (r == [] || !p(r[|r| - 1]))
      && (forall i :: |r| <= i < |s| ==> p(s[i]))
  {
    if s != [] && p(s[|s| - 1]) {
      DropWhileEndFacts(s[..|s| - 1], p);
    }
  }

  /** `re.sub(r'[sep]+', rep, s)`: each maximal run of `sep` characters becomes one `rep`. */
  function ReplaceRuns(s: string, sep: char -> bool, rep: char): string
    decreases |s|
  {
    if s == [] then []
    else if !sep(s[0]) then [s[0]] + ReplaceRuns(s[1..], sep, rep)
    else [rep] + ReplaceRuns(DropWhile(s[1..], sep), sep, rep)
  }

  /** `s.strip(chars)`: the characters satisfying `p` removed from both ends. */
  function Strip(s: string, p: char -> bool): string {
    DropWhileEnd(DropWhile(s, p), p)
  }

  // ---------------------------------------------------------------------------
  // Shapes
  // ---------------------------------------------------------------------------

  /** Every `sep` character of `s` is `rep`, and no two `sep` characters are adjacent. */
  predicate Collapsed(s: string, sep: char -> bool, rep: char) {
    && (forall i :: 0 <= i < |s| && sep(s[i]) ==> s[i] == rep)
    && (forall i :: 0 <= i < |s| - 1 ==> !(sep(s[i]) && sep(s[i + 1])))
  }

  /** Neither end of `s` satisfies `p`. */
  predicate Trimmed(s: string, p: char -> bool) {
    s == [] || (!p(s[0]) && !p(s[|s| - 1]))
  }

  /** The characters of `s` outside the class `sep`, in order. */
  function Keep(s: string, sep: char -> bool): string {
    if s == [] then [] else (if sep(s[0]) then [] else [s[0]]) + Keep(s[1..], sep)
  }

  // ---------------------------------------------------------------------------
  // Lemmas about the building blocks
  // ---------------------------------------------------------------------------

  lemma KeepAppend(a: string, b: string, sep: char -> bool)
    ensures Keep(a + b, sep) == Keep(a, sep) + Keep(b, sep)
  {
    if a != [] {
      assert (a + b)[0] == a[0];
      assert (a + b)[1..] == a[1..] + b;
      KeepAppend(a[1..], b, sep);
    } else {
      assert a + b == b;
    }
  }

  /** A string made only of `sep` characters keeps nothing. */
  lemma KeepNone(s: string, sep: char -> bool)
    requires forall i :: 0 <= i < |s| ==> sep(s[i])
    ensures Keep(s, sep) == []
  {
    if s != [] {
      KeepNone(s[1..], sep);
    }
  }

  /** A replaced string starts with a `sep` character only if the input does. */
  lemma ReplaceRunsHead(s: string, sep: char -> bool, rep: char)
    requires s != []
    ensures ReplaceRuns(s, sep, rep) != []
    ensures ReplaceRuns(s, sep, rep)[0] == (if sep(s[0]) then rep else s[0])
  {
  }

  lemma {:induction false} ReplaceRunsCollapsed(s: string, sep: char -> bool, rep: char)
    requires sep(rep)
    ensures Collapsed(ReplaceRuns(s, sep, rep), sep, rep)
    decreases |s|
  {
    if s != [] {
      var rest := if sep(s[0]) then DropWhile(s[1..], sep) else s[1..];
      ReplaceRunsCollapsed(rest, sep, rep);
      var tail := ReplaceRuns(rest, sep, rep);
      var r := ReplaceRuns(s, sep, rep);
      assert r == [if sep(s[0]) then rep else s[0]] + tail;
      if sep(s[0]) {
        DropWhileFacts(s[1..], sep);
      }
      if tail != [] {
        ReplaceRunsHead(rest, sep, rep);
        assert sep(s[0]) ==> !sep(tail[0]);
      }
      forall i | 0 <= i < |r| - 1
        ensures !(sep(r[i]) && sep(r[i + 1]))
      {
        if i > 0 {
          assert r[i] == tail[i - 1] && r[i + 1] == tail[i];
        }
      }
      forall i | 0 <= i < |r| && sep(r[i])
        ensures r[i] == rep
      {
        if i > 0 {
          assert r[i] == tail[i - 1];
        }
      }
    }
  }

  lemma {:induction false} ReplaceRunsKeep(s: string, sep: char -> bool, rep: char)
    requires sep(rep)
    ensures Keep(ReplaceRuns(s, sep, rep), sep) == Keep(s, sep)
    decreases |s|
  {
    if s != [] {
      if !sep(s[0]) {
        ReplaceRunsKeep(s[1..], sep, rep);
        KeepAppend([s[0]], ReplaceRuns(s[1..], sep, rep), sep);
      } else {
        var rest := DropWhile(s[1..], sep);
        DropWhileFacts(s[1..], sep);
        ReplaceRunsKeep(rest, sep, rep);
        KeepAppend([rep], ReplaceRuns(rest, sep, rep), sep);
        var dropped := s[1..][..|s[1..]| - |rest|];
        assert s[1..] == dropped + rest;
        KeepNone(dropped, sep);
        KeepAppend(dropped, rest, sep);
        assert s == [s[0]] + s[1..];
        KeepAppend([s[0]], s[1..], sep);
      }
    }
  }

  /** `ReplaceRuns` leaves a string that is already collapsed alone. */
  lemma {:induction false} ReplaceRunsFixed(s: string, sep: char -> bool, rep: char)
    requires Collapsed(s, sep, rep)
    ensures ReplaceRuns(s, sep, rep) == s
    decreases |s|
  {
    if s != [] {
      assert Collapsed(s[1..], sep, rep) by {
        forall i | 0 <= i < |s[1..]| - 1 ensures !(sep(s[1..][i]) && sep(s[1..][i + 1])) {
          assert s[1..][i] == s[i + 1] && s[1..][i + 1] == s[i + 2];
        }
      }
      ReplaceRunsFixed(s[1..], sep, rep);
      if sep(s[0]) {
        assert s[1..] == [] || !sep(s[1]);
        assert DropWhile(s[1..], sep) == s[1..];
      }
    }
  }

  lemma StripIsSlice(s: string, p: char -> bool)
    ensures exists i, j :: 0 <= i <= j <= |s| && Strip(s, p) == s[i..j]
    ensures Trimmed(Strip(s, p), p)
  {
    var d := DropWhile(s, p);
    var r := DropWhileEnd(d, p);
    DropWhileFacts(s, p);
    DropWhileEndFacts(d, p);
    var i := |s| - |d|;
    assert r == s[i..i + |r|];
  }

  lemma StripFixed(s: string, p: char -> bool)
    requires Trimmed(s, p)
    ensures Strip(s, p) == s
  {
  }

  lemma SliceCollapsed(s: string, i: int, j: int, sep: char -> bool, rep: char)
    requires 0 <= i <= j <= |s|
    requires Collapsed(s, sep, rep)
    ensures Collapsed(s[i..j], sep, rep)
  {
    var t := s[i..j];
    forall k | 0 <= k < |t| - 1 ensures !(sep(t[k]) && sep(t[k + 1])) {
      assert t[k] == s[i + k] && t[k + 1] == s[i + k + 1];
    }
  }

  lemma {:induction false} KeepDropWhile(s: string, p: char -> bool, sep: char -> bool)
    requires forall c :: p(c) ==> sep(c)
    ensures Keep(DropWhile(s, p), sep) == Keep(s, sep)
    decreases |s|
  {
    if s != [] && p(s[0]) {
      KeepDropWhile(s[1..], p, sep);
    }
  }

  lemma {:induction false} KeepDropWhileEnd(s: string, p: char -> bool, sep: char -> bool)
    requires forall c :: p(c) ==> sep(c)
    ensures Keep(DropWhileEnd(s, p), sep) == Keep(s, sep)
    decreases |s|
  {
    if s != [] && p(s[|s| - 1]) {
      var n := |s| - 1;
      KeepDropWhileEnd(s[..n], p, sep);
      assert s == s[..n] + [s[n]];
      KeepAppend(s[..n], [s[n]], sep);
      assert Keep([s[n]], sep) == [];
    }
  }

  /** Stripping characters that belong to `sep` does not change what `Keep` sees. */
  lemma StripKeep(s: string, p: char -> bool, sep: char -> bool)
    requires forall c :: p(c) ==> sep(c)
    ensures Keep(Strip(s, p), sep) == Keep(s, sep)
  {
    KeepDropWhile(s, p, sep);
    KeepDropWhileEnd(DropWhile(s, p), p, sep);
  }

  // ---------------------------------------------------------------------------
  // slugify (data-crawl.py:39-40)
  // ---------------------------------------------------------------------------

  /** A well-formed slug: only `[a-z0-9-]`, no `-` at either end, no `--`. */
  predicate IsSlug(s: string) {
    && (forall i :: 0 <= i < |s| ==> IsSlugChar(s[i]) || s[i] == '-')
    && (s != [] ==> s[0] != '-' && s[|s| - 1] != '-')
    && (forall i :: 0 <= i < |s| - 1 ==> !(s[i] == '-' && s[i + 1] == '-'))
  }

  /** `re.sub(r'[^a-z0-9]+', '-', text.lower()).strip('-')`. */
  function Slugify(text: string): string {
    Strip(ReplaceRuns(Lower(text), NotSlugChar, '-'), IsDash)
  }

  /**
   * `slugify` always returns a well-formed slug, and the slug's letters and
   * digits are exactly those of the lower-cased title, in order.
   */
  lemma SlugifyShape(text: string)
    ensures IsSlug(Slugify(text))
    ensures Keep(Slugify(text), NotSlugChar) == Keep(Lower(text), NotSlugChar)
  {
    var replaced := ReplaceRuns(Lower(text), NotSlugChar, '-');
    ReplaceRunsCollapsed(Lower(text), NotSlugChar, '-');
    ReplaceRunsKeep(Lower(text), NotSlugChar, '-');
    StripIsSlice(replaced, IsDash);
    var i, j :| 0 <= i <= j <= |replaced| && Strip(replaced, IsDash) == replaced[i..j];
    SliceCollapsed(replaced, i, j, NotSlugChar, '-');
    StripKeep(replaced, IsDash, NotSlugChar);
  }

  /** A well-formed slug is its own slug. */
  lemma SlugifyFixesSlugs(s: string)
    requires IsSlug(s)
    ensures Slugify(s) == s
  {
    assert Lower(s) == s;
    assert Collapsed(s, NotSlugChar, '-');
    ReplaceRunsFixed(s, NotSlugChar, '-');
    StripFixed(s, IsDash);
  }

  lemma SlugifyIdempotent(text: string)
    ensures Slugify(Slugify(text)) == Slugify(text)
  {
    SlugifyShape(text);
    SlugifyFixesSlugs(Slugify(text));
  }

  // ---------------------------------------------------------------------------
  // Whitespace normalisation (data-crawl.py:168)
  // ---------------------------------------------------------------------------

  /** Single-spaced: no whitespace at either end, none adjacent, and all of it is `' '`. */
  predicate SingleSpaced(s: string) {
    Trimmed(s, IsSpace) && Collapsed(s, IsSpace, ' ')
  }

  /** `re.sub(r'\s+', ' ', s).strip()`. */
  function NormalizeWhitespace(s: string): string {
    Strip(ReplaceRuns(s, IsSpace, ' '), IsSpace)
  }

  /**
   * The normalised text is single-spaced and keeps every non-whitespace
   * character of the input, in order.
   */
  lemma NormalizeShape(s: string)
    ensures SingleSpaced(NormalizeWhitespace(s))
    ensures Keep(NormalizeWhitespace(s), IsSpace) == Keep(s, IsSpace)
  {
    var replaced := ReplaceRuns(s, IsSpace, ' ');
    ReplaceRunsCollapsed(s, IsSpace, ' ');
    ReplaceRunsKeep(s, IsSpace, ' ');
    StripIsSlice(replaced, IsSpace);
    var i, j :| 0 <= i <= j <= |replaced| && Strip(replaced, IsSpace) == replaced[i..j];
    SliceCollapsed(replaced, i, j, IsSpace, ' ');
    StripKeep(replaced, IsSpace, IsSpace);
  }

  /** A single-spaced string is already normalised. */
  lemma NormalizeFixesSingleSpaced(s: string)
    requires SingleSpaced(s)
    ensures NormalizeWhitespace(s) == s
  {
    ReplaceRunsFixed(s, IsSpace, ' ');
    StripFixed(s, IsSpace);
  }

  lemma NormalizeIdempotent(s: string)
    ensures NormalizeWhitespace(NormalizeWhitespace(s)) == NormalizeWhitespace(s)
  {
    NormalizeShape(s);
    NormalizeFixesSingleSpaced(NormalizeWhitespace(s));
  }
}
