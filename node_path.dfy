/** The two functions of Node's POSIX `path` module that name the output
    files: `path.extname(p)`, and `path.basename(p, ext)` with `ext` the
    extension `path.extname(p)` gives. Both look only at the last segment of
    `p`, after dropping trailing separators. The functions' own contracts
    are small bounds; what they compute is stated by the lemmas after each
    of them. */
module NodePath {
  import opened Wrappers
  import opened JsStrings

  const Separator := '/'

  /** `p` without its trailing separators. */
  function TrimTrailingSeparators(p: string): string {
    if p != [] && p[|p| - 1] == Separator then TrimTrailingSeparators(p[..|p| - 1]) else p
  }

  /** Trimming keeps a prefix that does not end in a separator and drops only separators. */
  lemma {:induction false} TrimTrailingSeparatorsSpec(p: string)
    ensures var r := TrimTrailingSeparators(p);
      && |r| <= |p| && r == p[..|r|]
      && (r == [] || r[|r| - 1] != Separator)
      && forall i | |r| <= i < |p| :: p[i] == Separator
  {
    if p != [] && p[|p| - 1] == Separator {
      TrimTrailingSeparatorsSpec(p[..|p| - 1]);
    }
  }

  /** The part of `q` after its last separator (all of `q` when it has none). */
  function AfterLastSeparator(q: string): string {
    if q == [] || q[|q| - 1] == Separator then []
    else AfterLastSeparator(q[..|q| - 1]) + [q[|q| - 1]]
  }

  /** The part after the last separator is a separator-free suffix of `q`,
      and is preceded by a separator unless it is all of `q`. */
  lemma {:induction false} AfterLastSeparatorSpec(q: string)
    ensures var r := AfterLastSeparator(q);
      && |r| <= |q| && r == q[|q| - |r|..]
      && (forall i | 0 <= i < |r| :: r[i] != Separator)
      && (|r| < |q| ==> q[|q| - |r| - 1] == Separator)
  {
    if q != [] && q[|q| - 1] != Separator {
      var q' := q[..|q| - 1];
      AfterLastSeparatorSpec(q');
      var r' := AfterLastSeparator(q');
      var k := |q'| - |r'|;
      assert AfterLastSeparator(q) == r' + [q[|q| - 1]];
      assert q[k..] == q[k..|q| - 1] + [q[|q| - 1]];
      assert q[k..|q| - 1] == q'[k..];
      if 0 < k {
        assert q[k - 1] == q'[k - 1];
      }
    }
  }

  /** The segment both `extname` and `basename` work on. */
  function LastSegment(p: string): string {
    AfterLastSeparator(TrimTrailingSeparators(p))
  }

  /** A name without separators is its own last segment. */
  lemma {:induction false} PlainNameIsLastSegment(p: string)
    requires forall i | 0 <= i < |p| :: p[i] != Separator
    ensures LastSegment(p) == p
  {
    assert TrimTrailingSeparators(p) == p;
    PlainNameAfterLastSeparator(p);
  }

  lemma {:induction false} PlainNameAfterLastSeparator(q: string)
    requires forall i | 0 <= i < |q| :: q[i] != Separator
    ensures AfterLastSeparator(q) == q
  {
    if q != [] {
      PlainNameAfterLastSeparator(q[..|q| - 1]);
      assert q[..|q| - 1] + [q[|q| - 1]] == q;
    }
  }

  /** The index of the last occurrence of `c` in `s`, if any. */
  function LastIndexOf(s: string, c: char): (r: Option<nat>)
    ensures r.Some? ==> r.value < |s| && s[r.value] == c
  {
    if s == [] then None
    else if s[|s| - 1] == c then Some(|s| - 1)
    else LastIndexOf(s[..|s| - 1], c)
  }

  /** LastIndexOf finds an occurrence of `c` with none after it, and finds
      none only when `c` does not occur. */
  lemma {:induction false} LastIndexOfSpec(s: string, c: char)
    ensures var r := LastIndexOf(s, c);
      && (r.Some? ==> s[r.value] == c && forall j | r.value < j < |s| :: s[j] != c)
      && (r.None? ==> forall j | 0 <= j < |s| :: s[j] != c)
  {
    if s != [] && s[|s| - 1] != c {
      LastIndexOfSpec(s[..|s| - 1], c);
    }
  }

  /** The segment `..`, the parent directory. */
  predicate IsDotDot(seg: string) {
    |seg| == 2 && seg[0] == '.' && seg[1] == '.'
  }

  /** `path.extname(p)`: the last segment from its last dot on, or `""` when
      the segment has no dot, its last dot is its first character (a dot-file
      such as `.env`) or the segment is `..`. */
  function ExtName(p: string): (r: string)
    ensures r == "" || r[0] == '.'
  {
    var seg := LastSegment(p);
    match LastIndexOf(seg, '.')
    case None => ""
    case Some(d) => if d == 0 || IsDotDot(seg) then "" else seg[d..]
  }

  /** A non-empty extension starts with the segment's last dot, ends the
      segment, is shorter than it and holds no other dot. */
  lemma ExtNameSpec(p: string)
    ensures var seg, r := LastSegment(p), ExtName(p);
      r == "" || (r[0] == '.' && |r| < |seg| && EndsWith(seg, r) && forall i | 1 <= i < |r| :: r[i] != '.')
  {
    var seg := LastSegment(p);
    LastIndexOfSpec(seg, '.');
    match LastIndexOf(seg, '.')
    case None =>
    case Some(d) =>
      var ext := seg[d..];
      assert seg[|seg| - |ext|..] == ext;
      forall i | 1 <= i < |ext| ensures ext[i] != '.' {
        assert ext[i] == seg[d + i];
      }
  }

  /** A segment has an extension exactly when it has a dot after its first
      character and is not `..`. */
  lemma ExtNameNonEmptyIff(p: string)
    ensures var seg := LastSegment(p);
      ExtName(p) != "" <==> (exists i :: 0 < i < |seg| && seg[i] == '.') && !IsDotDot(seg)
  {
    var seg := LastSegment(p);
    LastIndexOfSpec(seg, '.');
    match LastIndexOf(seg, '.')
    case None =>
    case Some(d) =>
      if d != 0 && !IsDotDot(seg) {
        assert seg[d..][0] == '.';
      }
  }

  /** `path.basename(p, ext)` for the suffix the server passes,
      `ext == ExtName(p)`: the last segment, with `ext` cut off its end when
      `ext` is a non-empty proper suffix of it; `""` when `ext` is all of `p`.
      For other suffixes Node's backward scan can differ on paths with
      trailing separators. */
  function BaseName(p: string, ext: string): (r: string)
    ensures |r| <= |LastSegment(p)|
  {
    var seg := LastSegment(p);
    if ext != "" && ext == p then ""
    else if ext != "" && |ext| < |seg| && EndsWith(seg, ext) then seg[..|seg| - |ext|]
    else seg
  }

  /** A dot-file whose only dot is its first character has no extension and
      keeps its whole segment as base name. */
  lemma DotFileHasNoExtension(p: string)
    requires var seg := LastSegment(p);
      |seg| > 0 && seg[0] == '.' && forall i | 0 < i < |seg| :: seg[i] != '.'
    ensures ExtName(p) == ""
    ensures BaseName(p, ExtName(p)) == LastSegment(p)
  {
    LastIndexOfSpec(LastSegment(p), '.');
  }

  /** The base name `basename(p, extname(p))` and the extension split the last
      segment: base name followed by extension gives the segment back. */
  lemma StemAndExtension(p: string)
    ensures BaseName(p, ExtName(p)) + ExtName(p) == LastSegment(p)
  {
    var seg, ext := LastSegment(p), ExtName(p);
    ExtNameSpec(p);
    if ext != "" {
      assert ext != p by {
        TrimTrailingSeparatorsSpec(p);
        AfterLastSeparatorSpec(TrimTrailingSeparators(p));
        assert |ext| < |seg| <= |p|;
      }
      assert seg[..|seg| - |ext|] + seg[|seg| - |ext|..] == seg;
    }
  }

  /** `p` is a name without separators whose last dot is at d > 0, and
      which is not `..`. */
  predicate SplitsAt(p: string, d: nat) {
    && (forall i | 0 <= i < |p| :: p[i] != Separator)
    && 0 < d < |p| && p[d] == '.'
    && (forall i | d < i < |p| :: p[i] != '.')
    && !IsDotDot(p)
  }

  /** For a name without separators whose last dot is at d > 0, the base name
      is everything before that dot and the extension everything from it. */
  lemma PlainNameSplit(p: string, d: nat)
    requires SplitsAt(p, d)
    ensures ExtName(p) == p[d..]
    ensures BaseName(p, ExtName(p)) == p[..d]
  {
    PlainNameIsLastSegment(p);
    LastIndexOfSpec(p, '.');
    assert LastIndexOf(p, '.') == Some(d);
    StemAndExtension(p);
  }
}
