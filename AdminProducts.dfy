/** src/pages/AdminProductsPage.tsx, the create-product form: `slugify`,
    `parseTags`, the resolved slug, the validation that runs before any
    upload or create call, and resetting the form. The regular-expression
    replacements are written out as functions on character sequences. */
module AdminProducts {
  import opened Wrappers
  import opened Strings
  import opened Seqs
  import opened Numbers

  // ---------------------------------------------------------------- slugify

  /** The characters `/[^a-z0-9\s-]/g` leaves in place. */
  predicate IsSlugSourceChar(c: char) { IsLowerAscii(c) || IsDigit(c) || IsSpace(c) || c == '-' }

  predicate IsSlugChar(c: char) { IsLowerAscii(c) || IsDigit(c) || c == '-' }

  predicate IsHyphen(c: char) { c == '-' }

  /** A lower-case letter or a digit: what a slug carries besides hyphens. */
  predicate IsAlnum(c: char) { IsLowerAscii(c) || IsDigit(c) }

  /** No two hyphens are adjacent. */
  predicate NoDoubleHyphen(s: string)
  {
    forall i :: 0 <= i < |s| - 1 ==> !(s[i] == '-' && s[i + 1] == '-')
  }

  /** What `slugify` promises: only `[a-z0-9-]`, no `--`, and no hyphen at
      either end. */
  predicate IsSlug(s: string)
  {
    && (forall i :: 0 <= i < |s| ==> IsSlugChar(s[i]))
    && NoDoubleHyphen(s)
    && (s != [] ==> s[0] != '-' && s[|s| - 1] != '-')
  }

  /** `s.replace(/X+/g, "-")` where `p` is the class `X`: each maximal run
      of characters satisfying `p` becomes a single hyphen. */
  function CollapseRuns(s: string, p: char -> bool): (r: string)
    ensures |r| <= |s|
    ensures forall i :: 0 <= i < |r| ==> r[i] == '-' || (r[i] in s && !p(r[i]))
    ensures s != [] ==> r != [] && r[0] == (if p(s[0]) then '-' else s[0])
    ensures p('-') ==> NoDoubleHyphen(r)
    decreases |s|
  {
    if s == [] then []
    else if p(s[0]) then
      var rest := DropWhile(s, p);
      assert |rest| < |s|;
      var r := ['-'] + CollapseRuns(rest, p);
      assert forall i :: 0 <= i < |rest| ==> rest[i] in s by {
        forall i | 0 <= i < |rest| ensures rest[i] in s {
          assert rest[i] == s[|s| - |rest| + i];
        }
      }
      r
    else
      [s[0]] + CollapseRuns(s[1..], p)
  }

  /** A string whose `p`-characters are lone hyphens is left as it is. */
  lemma {:induction false} CollapseRunsKeeps(s: string, p: char -> bool)
    requires forall i :: 0 <= i < |s| && p(s[i]) ==> s[i] == '-'
    requires forall i :: 0 <= i < |s| - 1 ==> !(p(s[i]) && p(s[i + 1]))
    ensures CollapseRuns(s, p) == s
  {
    if s != [] {
      CollapseRunsKeeps(s[1..], p);
      if p(s[0]) {
        assert DropWhile(s[1..], p) == s[1..];
        assert DropWhile(s, p) == s[1..];
      }
    }
  }

  /** `replace(/X+/g, "-")` is `split(/X+/).join("-")`: each maximal run
      of `p`-characters becomes exactly one hyphen and every other
      character stays where it was. */
  lemma {:induction false} CollapseRunsJoinsSplit(s: string, p: char -> bool)
    ensures CollapseRuns(s, p) == Join(SplitRuns(s, p), "-")
    decreases |s|
  {
    if s != [] {
      if p(s[0]) {
        var rest := DropWhile(s, p);
        CollapseRunsJoinsSplit(rest, p);
        var pieces := SplitRuns(rest, p);
        assert SplitRuns(s, p) == [[]] + pieces;
        assert ([[]] + pieces)[1..] == pieces;
        assert Join([[]] + pieces, "-") == [] + "-" + Join(pieces, "-");
      } else {
        CollapseRunsJoinsSplit(s[1..], p);
        var pieces := SplitRuns(s[1..], p);
        JoinGlueFirst([s[0]], pieces, "-");
      }
    }
  }

  /** Collapsing runs of characters a filter drops does not change what
      the filter keeps. */
  lemma {:induction false} FilterCollapseRuns(s: string, p: char -> bool, q: char -> bool)
    requires !q('-')
    requires forall i :: 0 <= i < |s| && p(s[i]) ==> !q(s[i])
    ensures Filter(CollapseRuns(s, p), q) == Filter(s, q)
    decreases |s|
  {
    if s != [] {
      if p(s[0]) {
        var rest := DropWhile(s, p);
        var k := |s| - |rest|;
        RunRejected(s, p, q, k);
        FilterCollapseRuns(rest, p, q);
        FilterCons('-', CollapseRuns(rest, p), q);
        assert CollapseRuns(s, p) == ['-'] + CollapseRuns(rest, p);
      } else {
        assert forall i :: 0 <= i < |s| - 1 && p(s[1..][i]) ==> !q(s[1..][i]) by {
          forall i | 0 <= i < |s| - 1 && p(s[1..][i]) ensures !q(s[1..][i]) {
            assert s[1..][i] == s[i + 1];
          }
        }
        FilterCollapseRuns(s[1..], p, q);
        FilterCons(s[0], CollapseRuns(s[1..], p), q);
        FilterCons(s[0], s[1..], q);
        assert CollapseRuns(s, p) == [s[0]] + CollapseRuns(s[1..], p);
        assert s == [s[0]] + s[1..];
      }
    }
  }

  /** A leading run of `p`-characters is dropped by a filter that rejects
      them, and what follows it still satisfies the lemma's condition. */
  lemma {:induction false} RunRejected(s: string, p: char -> bool, q: char -> bool, k: nat)
    requires forall i :: 0 <= i < |s| && p(s[i]) ==> !q(s[i])
    requires k <= |s| && forall i :: 0 <= i < k ==> p(s[i])
    ensures Filter(s, q) == Filter(s[k..], q)
    ensures forall i :: 0 <= i < |s| - k && p(s[k..][i]) ==> !q(s[k..][i])
  {
    forall i | 0 <= i < k ensures !q(s[i]) {
      assert p(s[i]);
    }
    FilterDropPrefix(s, k, q);
    forall i | 0 <= i < |s| - k && p(s[k..][i]) ensures !q(s[k..][i]) {
      assert s[k..][i] == s[k + i];
    }
  }

  /** `s.replace(/^-+|-+$/g, "")` */
  function StripHyphens(s: string): (r: string)
    ensures r == [] || (r[0] != '-' && r[|r| - 1] != '-')
  {
    DropLastWhile(DropWhile(s, IsHyphen), IsHyphen)
  }

  /** `slugify(value)`: trim, lowercase, drop everything but letters,
      digits, white space and hyphens, turn white-space runs into hyphens,
      collapse hyphen runs and strip the hyphens at both ends. */
  function Slugify(value: string): (r: string)
    ensures IsSlug(r)
  {
    var lowered := ToLower(Trim(value));
    var kept := Filter(lowered, IsSlugSourceChar);
    var spaced := CollapseRuns(kept, IsSpace);
    var collapsed := CollapseRuns(spaced, IsHyphen);
    SlugShape(kept, spaced, collapsed);
    StripHyphens(collapsed)
  }

  lemma SlugShape(kept: string, spaced: string, collapsed: string)
    requires forall i :: 0 <= i < |kept| ==> IsSlugSourceChar(kept[i])
    requires spaced == CollapseRuns(kept, IsSpace) && collapsed == CollapseRuns(spaced, IsHyphen)
    ensures IsSlug(StripHyphens(collapsed))
  {
    CollapseSpacesShape(kept, spaced);
    CollapseHyphensShape(spaced, collapsed);
    StripShape(collapsed);
  }

  lemma CollapseSpacesShape(kept: string, spaced: string)
    requires forall i :: 0 <= i < |kept| ==> IsSlugSourceChar(kept[i])
    requires spaced == CollapseRuns(kept, IsSpace)
    ensures forall i :: 0 <= i < |spaced| ==> IsSlugChar(spaced[i])
  {
    forall i | 0 <= i < |spaced| ensures IsSlugChar(spaced[i]) {
      if spaced[i] != '-' {
        var k :| 0 <= k < |kept| && kept[k] == spaced[i];
      }
    }
  }

  lemma CollapseHyphensShape(spaced: string, collapsed: string)
    requires forall i :: 0 <= i < |spaced| ==> IsSlugChar(spaced[i])
    requires collapsed == CollapseRuns(spaced, IsHyphen)
    ensures forall i :: 0 <= i < |collapsed| ==> IsSlugChar(collapsed[i])
    ensures NoDoubleHyphen(collapsed)
  {
    forall i | 0 <= i < |collapsed| ensures IsSlugChar(collapsed[i]) {
      if collapsed[i] != '-' {
        var k :| 0 <= k < |spaced| && spaced[k] == collapsed[i];
      }
    }
  }

  lemma StripShape(collapsed: string)
    requires forall i :: 0 <= i < |collapsed| ==> IsSlugChar(collapsed[i])
    requires NoDoubleHyphen(collapsed)
    ensures IsSlug(StripHyphens(collapsed))
  {
    var a, b := StripBounds(collapsed);
    SliceKeepsShape(collapsed, a, b);
  }

  /** Stripping the end hyphens keeps a contiguous run of the string. */
  lemma StripBounds(s: string) returns (a: nat, b: nat)
    ensures a <= b <= |s| && StripHyphens(s) == s[a..b]
  {
    var front := DropWhile(s, IsHyphen);
    a := |s| - |front|;
    var n := |DropLastWhile(front, IsHyphen)|;
    b := a + n;
    assert StripHyphens(s) == DropLastWhile(front, IsHyphen) == front[..n];
    SliceOfSuffix(s, front, a, n);
  }

  lemma SliceOfSuffix(s: string, front: string, a: nat, n: nat)
    requires a <= |s| && front == s[a..] && n <= |front|
    ensures front[..n] == s[a..a + n]
  {
  }

  lemma SliceKeepsShape(s: string, a: nat, b: nat)
    requires a <= b <= |s|
    requires forall i :: 0 <= i < |s| ==> IsSlugChar(s[i])
    requires NoDoubleHyphen(s)
    ensures forall i :: 0 <= i < b - a ==> IsSlugChar(s[a..b][i])
    ensures NoDoubleHyphen(s[a..b])
  {
    var t := s[a..b];
    forall i | 0 <= i < |t| - 1 ensures !(t[i] == '-' && t[i + 1] == '-') {
      assert t[i] == s[a + i] && t[i + 1] == s[a + i + 1];
    }
  }

  /** A slug is its own slug. */
  lemma SlugifyFixesSlug(s: string)
    requires IsSlug(s)
    ensures Slugify(s) == s
  {
    var lowered := ToLower(Trim(s));
    SlugPrepared(s);
    var kept := Filter(lowered, IsSlugSourceChar);
    SlugKept(s);
    var spaced := CollapseRuns(kept, IsSpace);
    var collapsed := CollapseRuns(spaced, IsHyphen);
    SlugNoRuns(s);
    assert collapsed == s;
    SlugStripped(s);
    assert Slugify(s) == StripHyphens(collapsed);
  }

  lemma SlugNoRuns(s: string)
    requires IsSlug(s)
    ensures CollapseRuns(s, IsSpace) == s && CollapseRuns(s, IsHyphen) == s
  {
    forall i | 0 <= i < |s| ensures !IsSpace(s[i]) {
      assert IsSlugChar(s[i]);
    }
    CollapseRunsKeeps(s, IsSpace);
    CollapseRunsKeeps(s, IsHyphen);
  }

  lemma SlugPrepared(s: string)
    requires IsSlug(s)
    ensures ToLower(Trim(s)) == s
  {
    assert IsTrimmed(s);
    assert IsLower(s);
  }

  lemma SlugKept(s: string)
    requires IsSlug(s)
    ensures Filter(s, IsSlugSourceChar) == s
  {
    FilterKeepsAll(s, IsSlugSourceChar);
  }

  lemma SlugStripped(s: string)
    requires IsSlug(s)
    ensures StripHyphens(s) == s
  {
    if s != [] {
      assert DropWhile(s, IsHyphen) == s;
      assert DropLastWhile(s, IsHyphen) == s;
    }
  }

  /** `slugify` is idempotent. */
  lemma SlugifyIdempotent(value: string)
    ensures Slugify(Slugify(value)) == Slugify(value)
  {
    SlugifyFixesSlug(Slugify(value));
  }

  /** The letters and digits of a slug are those of the trimmed,
      lowercased input, in order: only separators are rewritten. */
  lemma SlugifyKeepsAlnum(value: string)
    ensures Filter(Slugify(value), IsAlnum) == Filter(ToLower(Trim(value)), IsAlnum)
  {
    var lowered := ToLower(Trim(value));
    var kept := Filter(lowered, IsSlugSourceChar);
    var spaced := CollapseRuns(kept, IsSpace);
    var collapsed := CollapseRuns(spaced, IsHyphen);
    AlnumThroughStages(lowered, kept, spaced, collapsed);
  }

  lemma AlnumThroughStages(lowered: string, kept: string, spaced: string, collapsed: string)
    requires kept == Filter(lowered, IsSlugSourceChar)
    requires spaced == CollapseRuns(kept, IsSpace) && collapsed == CollapseRuns(spaced, IsHyphen)
    ensures Filter(StripHyphens(collapsed), IsAlnum) == Filter(lowered, IsAlnum)
  {
    forall i | 0 <= i < |lowered| && IsAlnum(lowered[i]) ensures IsSlugSourceChar(lowered[i]) {
    }
    FilterThenStricter(lowered, IsSlugSourceChar, IsAlnum);
    assert Filter(kept, IsAlnum) == Filter(lowered, IsAlnum);
    forall i | 0 <= i < |kept| && IsSpace(kept[i]) ensures !IsAlnum(kept[i]) {
    }
    FilterCollapseRuns(kept, IsSpace, IsAlnum);
    assert Filter(spaced, IsAlnum) == Filter(lowered, IsAlnum);
    FilterCollapseRuns(spaced, IsHyphen, IsAlnum);
    assert Filter(collapsed, IsAlnum) == Filter(lowered, IsAlnum);
    StripKeepsAlnum(collapsed);
  }

  lemma StripKeepsAlnum(s: string)
    ensures Filter(StripHyphens(s), IsAlnum) == Filter(s, IsAlnum)
  {
    var front := DropWhile(s, IsHyphen);
    FilterDropPrefix(s, |s| - |front|, IsAlnum);
    var r := DropLastWhile(front, IsHyphen);
    FilterDropSuffix(front, |r|, IsAlnum);
  }

  /** `resolvedSlug`: the slug field when it is not empty, the name
      otherwise, slugified. A slug field holding only white space does not
      fall back to the name. */
  function ResolvedSlug(slugField: string, name: string): (r: string)
    ensures IsSlug(r)
  {
    if slugField != [] then Slugify(slugField) else Slugify(name)
  }

  /** A slug typed into the slug field is used as it is; with the field
      empty, a name that is already a slug is used as it is. */
  lemma ResolvedSlugOfSlug(slugField: string, name: string)
    ensures slugField != [] && IsSlug(slugField) ==> ResolvedSlug(slugField, name) == slugField
    ensures slugField == [] && IsSlug(name) ==> ResolvedSlug(slugField, name) == name
  {
    if slugField != [] && IsSlug(slugField) {
      SlugifyFixesSlug(slugField);
    }
    if slugField == [] && IsSlug(name) {
      SlugifyFixesSlug(name);
    }
  }

  // -------------------------------------------------------------- parseTags

  /** The class `[\s,]` `parseTags` splits on. */
  predicate IsTagSeparator(c: char) { IsSpace(c) || c == ',' }

  predicate IsHash(c: char) { c == '#' }

  /** `s.split(/X+/)` where `p` is the class `X`: the pieces between
      maximal runs of separators, with an empty first or last piece when
      `s` starts or ends with a separator. */
  function SplitRuns(s: string, p: char -> bool): (r: seq<string>)
    ensures |r| >= 1
    ensures forall k :: 0 <= k < |r| ==> NoneSatisfy(r[k], p)
    decreases |s|
  {
    if s == [] then [[]]
    else if p(s[0]) then
      var rest := DropWhile(s, p);
      assert |rest| < |s|;
      [[]] + SplitRuns(rest, p)
    else
      var rest := SplitRuns(s[1..], p);
      [[s[0]] + rest[0]] + rest[1..]
  }

  lemma {:induction false} SplitRunsNoSep(s: string, p: char -> bool)
    requires NoneSatisfy(s, p)
    ensures SplitRuns(s, p) == [s]
  {
    if s != [] {
      SplitRunsNoSep(s[1..], p);
      assert [s[0]] + s[1..] == s;
    }
  }

  /** A separator-free prefix is glued onto the first piece. */
  lemma {:induction false} SplitRunsPrefix(a: string, b: string, p: char -> bool)
    requires NoneSatisfy(a, p)
    requires b != [] && p(b[0])
    ensures SplitRuns(a + b, p) == [a + SplitRuns(b, p)[0]] + SplitRuns(b, p)[1..]
  {
    var pieces := SplitRuns(b, p);
    if a == [] {
      assert a + b == b;
      assert pieces[0] == [] && a + pieces[0] == pieces[0];
      assert [pieces[0]] + pieces[1..] == pieces;
    } else {
      var tail := SplitRuns(a[1..] + b, p);
      assert tail[0] == a[1..] + pieces[0] && tail[1..] == pieces[1..] by {
        SplitRunsPrefix(a[1..], b, p);
      }
      assert SplitRuns(a + b, p) == [[a[0]] + tail[0]] + tail[1..] by {
        SplitRunsCons(a[0], a[1..] + b, p);
        assert [a[0]] + (a[1..] + b) == a + b;
      }
      assert [a[0]] + (a[1..] + pieces[0]) == a + pieces[0];
    }
  }

  /** A leading non-separator joins the first piece. */
  lemma SplitRunsCons(c: char, s: string, p: char -> bool)
    requires !p(c)
    ensures SplitRuns([c] + s, p) == [[c] + SplitRuns(s, p)[0]] + SplitRuns(s, p)[1..]
  {
    assert ([c] + s)[1..] == s;
  }

  /** Splitting parts joined by one separator gives the parts back, when
      they are non-empty and separator-free. */
  lemma {:induction false} SplitRunsJoin(parts: seq<string>, sep: char, p: char -> bool)
    requires |parts| >= 1 && p(sep)
    requires forall k :: 0 <= k < |parts| ==> parts[k] != [] && NoneSatisfy(parts[k], p)
    ensures SplitRuns(Join(parts, [sep]), p) == parts
  {
    if |parts| == 1 {
      SplitRunsNoSep(parts[0], p);
    } else {
      var rest := Join(parts[1..], [sep]);
      SplitRunsJoin(parts[1..], sep, p);
      JoinStartsWith(parts[1..], [sep]);
      assert rest[0] == parts[1][0];
      var tail := [sep] + rest;
      assert tail[1..] == rest;
      assert DropWhile(rest, p) == rest;
      assert DropWhile(tail, p) == rest;
      assert SplitRuns(tail, p) == [[]] + parts[1..];
      SplitRunsPrefix(parts[0], tail, p);
      assert Join(parts, [sep]) == parts[0] + tail;
      assert parts[0] + [] == parts[0];
      assert parts == [parts[0]] + parts[1..];
    }
  }

  /** The pieces `parts` with the separator run `seps[k]` written between
      `parts[k]` and `parts[k + 1]`, as a user types `"a, b"` or `" a"`. */
  function Interleave(parts: seq<string>, seps: seq<string>): string
    requires |parts| >= 1 && |seps| == |parts| - 1
    decreases |parts|
  {
    if |parts| == 1 then parts[0]
    else parts[0] + seps[0] + Interleave(parts[1..], seps[1..])
  }

  /** Splitting on separator runs gives back the pieces between them,
      whatever each run is made of; the first and last piece may be empty
      (a leading or trailing separator), the inner ones may not. */
  lemma {:induction false} SplitRunsSeparated(parts: seq<string>, seps: seq<string>, p: char -> bool)
    requires |parts| >= 1 && |seps| == |parts| - 1
    requires forall k :: 0 <= k < |parts| ==> NoneSatisfy(parts[k], p)
    requires forall k :: 0 < k < |parts| - 1 ==> parts[k] != []
    requires forall k :: 0 <= k < |seps| ==> seps[k] != [] && AllSatisfy(seps[k], p)
    ensures SplitRuns(Interleave(parts, seps), p) == parts
    decreases |parts|
  {
    if |parts| == 1 {
      SplitRunsNoSep(parts[0], p);
    } else {
      var ps, ss := parts[1..], seps[1..];
      forall k | 0 <= k < |ps| ensures NoneSatisfy(ps[k], p) {
        assert ps[k] == parts[k + 1];
      }
      forall k | 0 < k < |ps| - 1 ensures ps[k] != [] {
        assert ps[k] == parts[k + 1];
      }
      forall k | 0 <= k < |ss| ensures ss[k] != [] && AllSatisfy(ss[k], p) {
        assert ss[k] == seps[k + 1];
      }
      var rest := Interleave(ps, ss);
      SplitRunsSeparated(ps, ss, p);
      InterleaveHead(ps, ss, p);
      SplitRunsPieceRun(parts[0], seps[0], rest, ps, p);
      assert Interleave(parts, seps) == parts[0] + (seps[0] + rest);
      assert [parts[0]] + ps == parts;
    }
  }

  /** The step of `SplitRunsSeparated`: a piece and a separator run in
      front of a string add that piece in front of its pieces. */
  lemma SplitRunsPieceRun(piece: string, run: string, rest: string, pieces: seq<string>, p: char -> bool)
    requires NoneSatisfy(piece, p)
    requires run != [] && AllSatisfy(run, p)
    requires rest == [] || !p(rest[0])
    requires SplitRuns(rest, p) == pieces
    ensures SplitRuns(piece + (run + rest), p) == [piece] + pieces
  {
    var tail := run + rest;
    SplitRunsAfterRun(run, rest, p);
    SplitRunsPrefix(piece, tail, p);
    assert piece + [] == piece;
  }

  /** An interleaving does not start with a separator. */
  lemma InterleaveHead(parts: seq<string>, seps: seq<string>, p: char -> bool)
    requires |parts| >= 1 && |seps| == |parts| - 1
    requires NoneSatisfy(parts[0], p)
    requires |parts| > 1 ==> parts[0] != []
    ensures Interleave(parts, seps) == [] || !p(Interleave(parts, seps)[0])
  {
    if |parts| > 1 {
      assert Interleave(parts, seps)[0] == parts[0][0];
    }
  }

  /** A separator run in front of a piece adds an empty piece. */
  lemma SplitRunsAfterRun(run: string, rest: string, p: char -> bool)
    requires run != [] && AllSatisfy(run, p)
    requires rest == [] || !p(rest[0])
    ensures SplitRuns(run + rest, p) == [[]] + SplitRuns(rest, p)
  {
    DropWhileRun(run, rest, p);
    assert (run + rest)[0] == run[0];
  }

  /** A tag `parseTags` can produce. */
  predicate IsTag(t: string)
  {
    t != [] && t[0] != '#' && IsLower(t) && NoneSatisfy(t, IsTagSeparator)
  }

  /** One piece of the split: leading `#`s removed, trimmed, lowercased. */
  function CleanTag(piece: string): (r: string)
    ensures NoneSatisfy(piece, IsTagSeparator) ==> r == [] || IsTag(r)
  {
    var bare := DropWhile(piece, IsHash);
    if NoneSatisfy(piece, IsTagSeparator) then
      BareShape(piece, bare);
      LoweredShape(bare);
      ToLower(Trim(bare))
    else
      ToLower(Trim(bare))
  }

  /** A tag is its own cleaned form. */
  lemma CleanTagOfTag(t: string)
    requires IsTag(t)
    ensures CleanTag(t) == t
  {
    assert DropWhile(t, IsHash) == t;
    assert IsTrimmed(t) by {
      assert !IsTagSeparator(t[0]) && !IsTagSeparator(t[|t| - 1]);
    }
  }

  lemma BareShape(piece: string, bare: string)
    requires NoneSatisfy(piece, IsTagSeparator) && bare == DropWhile(piece, IsHash)
    ensures NoneSatisfy(bare, IsTagSeparator) && Trim(bare) == bare
  {
    DropWhileNoneSatisfy(piece, IsHash, IsTagSeparator);
    if bare != [] {
      assert !IsTagSeparator(bare[0]) && !IsTagSeparator(bare[|bare| - 1]);
    }
    assert IsTrimmed(bare);
  }

  lemma LoweredShape(bare: string)
    requires NoneSatisfy(bare, IsTagSeparator) && (bare == [] || bare[0] != '#')
    ensures ToLower(bare) == [] || IsTag(ToLower(bare))
  {
    var r := ToLower(bare);
    forall i | 0 <= i < |r| ensures !IsTagSeparator(r[i]) {
      LowerKeepsSeparatorFree(bare[i]);
    }
    if bare != [] {
      assert r[0] == LowerChar(bare[0]);
    }
  }

  lemma LowerKeepsSeparatorFree(c: char)
    requires !IsTagSeparator(c)
    ensures !IsTagSeparator(LowerChar(c))
  {
    var d := LowerChar(c);
    assert IsSpace(d) <==> IsSpace(c);
    if IsUpperAscii(c) {
      assert IsLowerAscii(d);
    } else {
      assert d == c;
    }
  }

  /** The non-blank cleaned pieces, before duplicates are dropped. */
  function TagCandidates(value: string): (r: seq<string>)
    ensures forall i :: 0 <= i < |r| ==> IsTag(r[i])
  {
    var pieces := SplitRuns(value, IsTagSeparator);
    var cleaned := Map(pieces, CleanTag);
    forall k | 0 <= k < |cleaned| && NonBlank(cleaned[k]) ensures IsTag(cleaned[k]) {
      assert NoneSatisfy(pieces[k], IsTagSeparator);
    }
    FilterKeepsProperty(cleaned, NonBlank, IsTag);
    Filter(cleaned, NonBlank)
  }

  predicate NonBlank(t: string) { t != [] }

  /** `parseTags(value)`: the cleaned pieces, blanks dropped, each tag once
      in the order of its first appearance. */
  function ParseTags(value: string): (r: seq<string>)
    ensures NoDups(r)
    ensures forall i :: 0 <= i < |r| ==> IsTag(r[i])
    ensures forall x :: x in r <==> x in TagCandidates(value)
    ensures forall i, j :: 0 <= i < j < |r| ==>
      FirstIndex(TagCandidates(value), r[i]) < FirstIndex(TagCandidates(value), r[j])
  {
    DedupMembers(TagCandidates(value));
    Dedup(TagCandidates(value))
  }

  /** Distinct tags joined by spaces parse back to themselves. */
  lemma ParseTagsOfJoin(tags: seq<string>)
    requires NoDups(tags)
    requires forall i :: 0 <= i < |tags| ==> IsTag(tags[i])
    ensures ParseTags(Join(tags, " ")) == tags
  {
    if tags == [] {
      ParseTagsEmpty();
    } else {
      var pieces := SplitRuns(Join(tags, " "), IsTagSeparator);
      assert pieces == tags by {
        SplitRunsJoin(tags, ' ', IsTagSeparator);
      }
      assert TagCandidates(Join(tags, " ")) == tags by {
        CleanTagsOfTags(tags);
        FilterKeepsAll(tags, NonBlank);
      }
      DedupOfDistinct(tags);
    }
  }

  /** An empty field has no tags. */
  lemma ParseTagsEmpty()
    ensures ParseTags("") == []
  {
    assert SplitRuns("", IsTagSeparator) == [[]];
    assert Map([[]], CleanTag) == [[]];
    assert Filter([[]], NonBlank) == [];
  }

  lemma CleanTagsOfTags(tags: seq<string>)
    requires forall i :: 0 <= i < |tags| ==> IsTag(tags[i])
    ensures Map(tags, CleanTag) == tags
  {
    forall i | 0 <= i < |tags| ensures CleanTag(tags[i]) == tags[i] {
      CleanTagOfTag(tags[i]);
    }
  }

  // ----------------------------------------------------------- the form

  /** Why the form refused to submit, in the order the checks run. */
  datatype FormProblem = MissingSlug | MissingName | InvalidPrice

  function ProblemMessage(p: FormProblem): string
  {
    match p
    case MissingSlug => "Slug is required."
    case MissingName => "Name is required."
    case InvalidPrice => "Price must be 0 or more."
  }

  /** `price === null || Number.isNaN(price) || price < 0` */
  predicate IsBadPrice(price: Option<JsNumber>)
  {
    price.None? || price.value.NaN? || Below(price.value, 0)
  }

  /** The first failing check of `handleSubmit`: an empty resolved slug,
      then a blank name, then a missing, NaN or negative price. */
  function FormError(slugField: string, name: string, price: Option<JsNumber>): (r: Option<FormProblem>)
    ensures r == Some(MissingSlug) <==> ResolvedSlug(slugField, name) == []
    ensures r == Some(MissingName) <==> ResolvedSlug(slugField, name) != [] && Trim(name) == []
    ensures r == Some(InvalidPrice) <==>
      ResolvedSlug(slugField, name) != [] && Trim(name) != [] && IsBadPrice(price)
    ensures r.None? ==> IsSlug(ResolvedSlug(slugField, name)) && ResolvedSlug(slugField, name) != []
  {
    if ResolvedSlug(slugField, name) == [] then Some(MissingSlug)
    else if Trim(name) == [] then Some(MissingName)
    else if IsBadPrice(price) then Some(InvalidPrice)
    else None
  }

  /** The order of the checks: a form with no usable slug reports the slug
      whatever the name and price, and a blank name is reported before a
      bad price. */
  lemma FormErrorOrder(slugField: string, name: string, price: Option<JsNumber>)
    ensures Trim(name) == [] && slugField == [] ==> FormError(slugField, name, price) == Some(MissingSlug)
    ensures FormError(slugField, name, price) == Some(InvalidPrice) ==> Trim(name) != []
  {
    if Trim(name) == [] && slugField == [] {
      assert forall i :: 0 <= i < |name| ==> IsSpace(name[i]);
      var lowered := ToLower(Trim(name));
      assert lowered == [];
      assert Filter(lowered, IsSlugSourceChar) == [];
    }
  }

  /** The checks of `handleSubmit` in order and, when they all pass, the
      payload of the create call: the resolved slug, the trimmed name, the
      trimmed description or `null` when blank, the validated price, the
      upper-cased currency, the image, the active flag and the parsed
      tags. */
  function CreateRequest(
    slugField: string, name: string, description: string, price: Option<JsNumber>,
    currency: string, file: Option<string>, isActive: bool, tagsInput: string): (r: Option<CreateProductRequest>)
    ensures r.None? <==> FormError(slugField, name, price).Some?
    ensures r.Some? ==>
      && r.value.slug == ResolvedSlug(slugField, name) && IsSlug(r.value.slug) && r.value.slug != []
      && r.value.name == Trim(name) && r.value.name != []
      && r.value.description == (if Trim(description) == [] then None else Some(Trim(description)))
      && price == Some(r.value.price) && !IsBadPrice(price)
      && r.value.currency == ToUpper(currency)
      && r.value.image == file && r.value.isActive == isActive
      && r.value.tags == ParseTags(tagsInput)
  {
    if FormError(slugField, name, price).Some? then None
    else
      var trimmedDescription := Trim(description);
      Some(CreateProductRequest(
        ResolvedSlug(slugField, name), Trim(name),
        if trimmedDescription == [] then None else Some(trimmedDescription),
        price.value, ToUpper(currency), file, isActive, ParseTags(tagsInput)))
  }

  datatype Tone = Idle | Saving | Succeeded | Failed

  datatype FormStatus = FormStatus(tone: Tone, message: string)

  /** The status `handleSubmit` shows once its checks have run: the
      first problem found, or that the upload and create are under way. */
  function SubmitStatus(problem: Option<FormProblem>): (r: FormStatus)
    ensures problem.Some? <==> r.tone == Failed
    ensures problem.Some? ==> r.message == ProblemMessage(problem.value)
  {
    match problem
    case Some(p) => FormStatus(Failed, ProblemMessage(p))
    case None => FormStatus(Saving, "Uploading and creating product...")
  }

  /** The payload passed to the create call; the price stays the validated
      number (its conversion to cents is not modelled). */
  datatype CreateProductRequest = CreateProductRequest(
    slug: string, name: string, description: Option<string>, price: JsNumber,
    currency: string, image: Option<string>, isActive: bool, tags: seq<string>)

  /** The form fields of the page; `file` is an opaque handle to the chosen
      image. */
  class ProductForm {
    var name: string
    var slug: string
    var description: string
    var price: Option<JsNumber>
    var currency: string
    var tagsInput: string
    var isActive: bool
    var file: Option<string>
    var status: FormStatus

    /** The values `useState` starts from and `resetForm` restores. */
    predicate IsBlank()
      reads this
    {
      && name == "" && slug == "" && description == "" && price == None
      && currency == "EUR" && tagsInput == "" && isActive && file == None
    }

    constructor ()
      ensures IsBlank() && status == FormStatus(Idle, "")
    {
      name, slug, description, price := "", "", "", None;
      currency, tagsInput, isActive, file := "EUR", "", true, None;
      status := FormStatus(Idle, "");
    }

    /** `resetForm`: every field back to its initial value; the status
        message stays. */
    method ResetForm()
      modifies this
      ensures IsBlank()
      ensures status == old(status)
    {
      name, slug, description, price := "", "", "", None;
      currency, tagsInput, isActive, file := "EUR", "", true, None;
    }

    /** The part of `handleSubmit` before the network: a failed check sets
        the error status and yields no request, so nothing is uploaded or
        created; otherwise the status turns to saving and the payload of
        the create call is returned. The fields are not touched. */
    method Submit() returns (request: Option<CreateProductRequest>)
      modifies this`status
      ensures request == CreateRequest(
        old(slug), old(name), old(description), old(price), old(currency), old(file), old(isActive), old(tagsInput))
      ensures status == SubmitStatus(FormError(old(slug), old(name), old(price)))
    {
      request := CreateRequest(slug, name, description, price, currency, file, isActive, tagsInput);
      status := SubmitStatus(FormError(slug, name, price));
    }

    /** The rest of `handleSubmit`, given the outcome of the create call
        (the created product's name, or the caught error: its message, or
        `None` for a thrown value that is not an `Error`): success reports
        the name and resets the form; failure reports the error, or
        "Product creation failed.", and keeps the fields. */
    method FinishSubmit(created: Result<string, Option<string>>)
      modifies this
      ensures created.Success? ==>
        status == FormStatus(Succeeded, "Product '" + created.value + "' created.") && IsBlank()
      ensures created.Failure? ==>
        && status == FormStatus(Failed, if created.error.Some? then created.error.value else "Product creation failed.")
        && name == old(name) && slug == old(slug) && description == old(description)
        && price == old(price) && currency == old(currency) && tagsInput == old(tagsInput)
        && isActive == old(isActive) && file == old(file)
    {
      match created {
        case Success(createdName) =>
          status := FormStatus(Succeeded, "Product '" + createdName + "' created.");
          ResetForm();
        case Failure(thrown) =>
          status := FormStatus(Failed, ErrorMessage(thrown, "Product creation failed."));
      }
    }
  }
}
