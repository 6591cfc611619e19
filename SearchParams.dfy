/** src/utils/searchParams.ts: normalising a multi-value selection and
    reading list and integer values out of URL query parameters. */
module SearchParams {
  import opened Wrappers
  import opened Strings
  import opened Seqs
  import opened StringOrder
  import opened Numbers

  /** The form one input takes in a normalised selection. */
  function Clean(v: string, lowercase: bool): string
  {
    if lowercase then ToLower(Trim(v)) else Trim(v)
  }

  /** The non-blank inputs, trimmed and (if asked) lowercased. */
  ghost function CleanSet(values: seq<string>, lowercase: bool): set<string>
  {
    set v | v in values && Trim(v) != [] :: Clean(v, lowercase)
  }

  /** A member of `CleanSet` is the cleaned form of some non-blank value. */
  lemma CleanSetElim(values: seq<string>, lowercase: bool, x: string)
    requires x in CleanSet(values, lowercase)
    ensures exists k :: 0 <= k < |values| && Trim(values[k]) != [] && x == Clean(values[k], lowercase)
  {
    var v :| v in values && Trim(v) != [] && x == Clean(v, lowercase);
    var k :| 0 <= k < |values| && values[k] == v;
  }

  /** An entry a normalised selection may hold. */
  predicate IsCleanEntry(x: string, lowercase: bool)
  {
    x != [] && IsTrimmed(x) && (lowercase ==> IsLower(x))
  }

  /** A value that survives `filter(Boolean)`. */
  predicate NonBlank(v: string) { v != [] }

  /** The `map(trim)`, `filter(Boolean)`, `map(toLowerCase)` chain. */
  function Cleaned(values: seq<string>, lowercase: bool): (r: seq<string>)
    ensures forall x :: x in r <==> x in CleanSet(values, lowercase)
    ensures forall i :: 0 <= i < |r| ==> IsCleanEntry(r[i], lowercase)
  {
    var nonEmpty := Filter(Map(values, Trim), NonBlank);
    var r := if lowercase then Map(nonEmpty, ToLower) else nonEmpty;
    CleanedSound(values, lowercase, nonEmpty, r);
    CleanedComplete(values, lowercase, nonEmpty, r);
    r
  }

  lemma CleanedSound(values: seq<string>, lowercase: bool, nonEmpty: seq<string>, r: seq<string>)
    requires nonEmpty == Filter(Map(values, Trim), NonBlank)
    requires r == if lowercase then Map(nonEmpty, ToLower) else nonEmpty
    ensures forall i :: 0 <= i < |r| ==> IsCleanEntry(r[i], lowercase) && r[i] in CleanSet(values, lowercase)
  {
    var trimmed := Map(values, Trim);
    forall i | 0 <= i < |r|
      ensures IsCleanEntry(r[i], lowercase) && r[i] in CleanSet(values, lowercase)
    {
      assert nonEmpty[i] in trimmed && NonBlank(nonEmpty[i]);
      var k :| 0 <= k < |trimmed| && trimmed[k] == nonEmpty[i];
      assert r[i] == Clean(values[k], lowercase);
      assert values[k] in values;
    }
  }

  lemma CleanedComplete(values: seq<string>, lowercase: bool, nonEmpty: seq<string>, r: seq<string>)
    requires nonEmpty == Filter(Map(values, Trim), NonBlank)
    requires r == if lowercase then Map(nonEmpty, ToLower) else nonEmpty
    ensures forall x :: x in CleanSet(values, lowercase) ==> x in r
  {
    forall x | x in CleanSet(values, lowercase) ensures x in r {
      CleanSetElim(values, lowercase, x);
      var k :| 0 <= k < |values| && Trim(values[k]) != [] && x == Clean(values[k], lowercase);
      var j := TrimmedSurvives(values, nonEmpty, k);
      CleanedAt(nonEmpty, r, lowercase, j, values[k]);
    }
  }

  lemma TrimmedSurvives(values: seq<string>, nonEmpty: seq<string>, k: int) returns (j: int)
    requires nonEmpty == Filter(Map(values, Trim), NonBlank)
    requires 0 <= k < |values| && Trim(values[k]) != []
    ensures 0 <= j < |nonEmpty| && nonEmpty[j] == Trim(values[k])
  {
    var trimmed := Map(values, Trim);
    assert trimmed[k] == Trim(values[k]) && NonBlank(trimmed[k]);
    assert Trim(values[k]) in nonEmpty;
    j :| 0 <= j < |nonEmpty| && nonEmpty[j] == Trim(values[k]);
  }

  lemma CleanedAt(nonEmpty: seq<string>, r: seq<string>, lowercase: bool, j: int, v: string)
    requires r == if lowercase then Map(nonEmpty, ToLower) else nonEmpty
    requires 0 <= j < |nonEmpty| && nonEmpty[j] == Trim(v)
    ensures j < |r| && r[j] == Clean(v, lowercase)
  {
  }

  /** `normalizeSelection(values, { lowercase })`: the non-blank values,
      trimmed, lowercased when `lowercase` (the default), without
      duplicates and sorted. */
  function NormalizeSelection(values: seq<string>, lowercase: bool): (r: seq<string>)
    ensures StrictlySorted(r)
    ensures forall x :: x in r <==> x in CleanSet(values, lowercase)
    ensures forall i :: 0 <= i < |r| ==> IsCleanEntry(r[i], lowercase)
  {
    var cleaned := Cleaned(values, lowercase);
    var distinct := Dedup(cleaned);
    SortedSelection(values, lowercase, cleaned, distinct);
    SortStrings(distinct)
  }

  lemma SortedSelection(values: seq<string>, lowercase: bool, cleaned: seq<string>, distinct: seq<string>)
    requires cleaned == Cleaned(values, lowercase) && distinct == Dedup(cleaned)
    ensures StrictlySorted(SortStrings(distinct))
    ensures forall x :: x in SortStrings(distinct) <==> x in CleanSet(values, lowercase)
    ensures forall i :: 0 <= i < |SortStrings(distinct)| ==> IsCleanEntry(SortStrings(distinct)[i], lowercase)
  {
    var r := SortStrings(distinct);
    SortDistinct(distinct);
    DedupMembers(cleaned);
    CleanEntriesKept(cleaned, r, lowercase);
  }

  lemma CleanEntriesKept(cleaned: seq<string>, r: seq<string>, lowercase: bool)
    requires forall i :: 0 <= i < |cleaned| ==> IsCleanEntry(cleaned[i], lowercase)
    requires forall x :: x in r ==> x in cleaned
    ensures forall i :: 0 <= i < |r| ==> IsCleanEntry(r[i], lowercase)
  {
    forall i | 0 <= i < |r| ensures IsCleanEntry(r[i], lowercase) {
      assert r[i] in cleaned;
      var k :| 0 <= k < |cleaned| && cleaned[k] == r[i];
    }
  }

  /** A list that is already sorted, duplicate-free and clean normalises to
      itself. */
  lemma NormalizeSelectionFixesNormalized(xs: seq<string>, lowercase: bool)
    requires StrictlySorted(xs)
    requires forall i :: 0 <= i < |xs| ==> IsCleanEntry(xs[i], lowercase)
    ensures NormalizeSelection(xs, lowercase) == xs
  {
    CleanSetOfCleanEntries(xs, lowercase);
    StrictlySortedUnique(NormalizeSelection(xs, lowercase), xs);
  }

  lemma CleanSetOfCleanEntries(xs: seq<string>, lowercase: bool)
    requires forall i :: 0 <= i < |xs| ==> IsCleanEntry(xs[i], lowercase)
    ensures forall x :: x in CleanSet(xs, lowercase) <==> x in xs
  {
    forall x | x in xs ensures x in CleanSet(xs, lowercase) {
      var i :| 0 <= i < |xs| && xs[i] == x;
      CleanOfCleanEntry(x, lowercase);
    }
  }

  lemma CleanOfCleanEntry(x: string, lowercase: bool)
    requires IsCleanEntry(x, lowercase)
    ensures Trim(x) == x && Clean(x, lowercase) == x
  {
  }

  /** Normalising twice is normalising once. */
  lemma NormalizeSelectionIdempotent(values: seq<string>, lowercase: bool)
    ensures NormalizeSelection(NormalizeSelection(values, lowercase), lowercase)
         == NormalizeSelection(values, lowercase)
  {
    NormalizeSelectionFixesNormalized(NormalizeSelection(values, lowercase), lowercase);
  }

  /** The result depends only on the set of cleaned inputs: two inputs
      that differ in order, repetition, surrounding blanks or (when
      lowercasing) letter case normalise alike. */
  lemma NormalizeSelectionDependsOnlyOnCleanSet(a: seq<string>, b: seq<string>, lowercase: bool)
    requires CleanSet(a, lowercase) == CleanSet(b, lowercase)
    ensures NormalizeSelection(a, lowercase) == NormalizeSelection(b, lowercase)
  {
    StrictlySortedUnique(NormalizeSelection(a, lowercase), NormalizeSelection(b, lowercase));
  }

  /** In particular order and repetition of the inputs do not matter. */
  lemma NormalizeSelectionIgnoresOrder(a: seq<string>, b: seq<string>, lowercase: bool)
    requires forall x :: x in a <==> x in b
    ensures NormalizeSelection(a, lowercase) == NormalizeSelection(b, lowercase)
  {
    assert CleanSet(a, lowercase) == CleanSet(b, lowercase);
    NormalizeSelectionDependsOnlyOnCleanSet(a, b, lowercase);
  }

  /** A character that is not an ASCII letter and does not occur in `v`
      does not occur in its cleaned form. */
  lemma CleanAvoids(v: string, c: char, lowercase: bool)
    requires c !in v && !IsUpperAscii(c) && !IsLowerAscii(c)
    ensures c !in Clean(v, lowercase)
  {
    var t := Trim(v);
    assert c !in t;
    if lowercase {
      forall i | 0 <= i < |t| ensures ToLower(t)[i] != c {
        assert ToLower(t)[i] == LowerChar(t[i]);
      }
    }
  }

  /** `parseCsvParam(raw, options)`: nothing for a missing or empty
      parameter, otherwise the normalised comma-separated pieces. */
  function ParseCsvParam(raw: Option<string>, lowercase: bool): (r: seq<string>)
    ensures raw.None? || raw.value == [] ==> r == []
    ensures raw.Some? && raw.value != [] ==>
      forall x :: x in r <==> x in CleanSet(SplitOn(raw.value, ','), lowercase)
    ensures StrictlySorted(r)
    ensures forall i :: 0 <= i < |r| ==> IsCleanEntry(r[i], lowercase) && ',' !in r[i]
  {
    if raw.None? || raw.value == [] then []
    else
      var pieces := SplitOn(raw.value, ',');
      var r := NormalizeSelection(pieces, lowercase);
      CommaFree(pieces, lowercase);
      r
  }

  /** Pieces of a comma split normalise to entries without a comma. */
  lemma CommaFree(pieces: seq<string>, lowercase: bool)
    requires forall k :: 0 <= k < |pieces| ==> ',' !in pieces[k]
    ensures forall i :: 0 <= i < |NormalizeSelection(pieces, lowercase)| ==>
      ',' !in NormalizeSelection(pieces, lowercase)[i]
  {
    var r := NormalizeSelection(pieces, lowercase);
    CleanSetAvoids(pieces, lowercase, ',');
    forall i | 0 <= i < |r| ensures ',' !in r[i] {
      assert r[i] in r;
    }
  }

  /** A character that is not a letter and occurs in no value occurs in
      no cleaned value. */
  lemma CleanSetAvoids(values: seq<string>, lowercase: bool, c: char)
    requires forall k :: 0 <= k < |values| ==> c !in values[k]
    requires !IsUpperAscii(c) && !IsLowerAscii(c)
    ensures forall x :: x in CleanSet(values, lowercase) ==> c !in x
  {
    forall x | x in CleanSet(values, lowercase) ensures c !in x {
      CleanSetElim(values, lowercase, x);
      var k :| 0 <= k < |values| && Trim(values[k]) != [] && x == Clean(values[k], lowercase);
      CleanAvoids(values[k], c, lowercase);
    }
  }

  /** A normalised list joined with commas, as the query builders emit
      it, reads back as the same list. */
  lemma ParseCsvParamJoin(xs: seq<string>, lowercase: bool)
    requires StrictlySorted(xs)
    requires forall i :: 0 <= i < |xs| ==> IsCleanEntry(xs[i], lowercase) && ',' !in xs[i]
    ensures ParseCsvParam(Some(Join(xs, ",")), lowercase) == xs
  {
    if xs != [] {
      var joined := Join(xs, ",");
      JoinCommaSplits(xs);
      JoinNonEmpty(xs, lowercase);
      CsvOfSplit(joined, xs, lowercase);
      NormalizeSelectionFixesNormalized(xs, lowercase);
    }
  }

  lemma JoinCommaSplits(xs: seq<string>)
    requires xs != []
    requires forall i :: 0 <= i < |xs| ==> ',' !in xs[i]
    ensures SplitOn(Join(xs, ","), ',') == xs
  {
    assert [','] == ",";
    SplitOnJoin(xs, ',');
  }

  lemma JoinNonEmpty(xs: seq<string>, lowercase: bool)
    requires xs != []
    requires forall i :: 0 <= i < |xs| ==> IsCleanEntry(xs[i], lowercase)
    ensures Join(xs, ",") != []
  {
    JoinStartsWith(xs, ",");
    assert xs[0] != [];
  }

  lemma CsvOfSplit(j: string, xs: seq<string>, lowercase: bool)
    requires j != [] && SplitOn(j, ',') == xs
    ensures ParseCsvParam(Some(j), lowercase) == NormalizeSelection(xs, lowercase)
  {
  }

  /** `parsePositiveIntParam(raw, fallback, min, max)`: the parsed value
      when it is a safe integer within `[min, max]`, `fallback` otherwise
      (also for a missing or empty parameter). The defaults are `min = 1`
      and `max = MAX_SAFE_INTEGER`. */
  function ParsePositiveIntParam(raw: Option<string>, fallback: int, min: int, max: int): (r: int)
    ensures r == fallback || (min <= r <= max && -MAX_SAFE_INTEGER <= r <= MAX_SAFE_INTEGER)
    ensures raw.None? || raw.value == [] ==> r == fallback
    ensures raw.Some? && ParseNumber(raw.value).None? ==> r == fallback
    ensures raw.Some? && raw.value != [] && ParseNumber(raw.value).Some? ==>
      var n := ParseNumber(raw.value).value;
      r == if min <= n <= max && -MAX_SAFE_INTEGER <= n <= MAX_SAFE_INTEGER then n else fallback
  {
    if raw.None? || raw.value == [] then fallback
    else
      var parsed := ParseNumber(raw.value);
      if parsed.None? || !IsSafeInteger(Int(parsed.value)) then fallback
      else if parsed.value < min || parsed.value > max then fallback
      else parsed.value
  }

  /** A page number written by `String(n)` reads back as `n` when it lies
      in the accepted range, and as the fallback otherwise. */
  lemma ParsePositiveIntParamOfIntToString(n: int, fallback: int, min: int, max: int)
    ensures ParsePositiveIntParam(Some(IntToString(n)), fallback, min, max)
         == if min <= n <= max && -MAX_SAFE_INTEGER <= n <= MAX_SAFE_INTEGER then n else fallback
  {
    ParseIntToString(n);
  }

  /** `parseNullableNonNegativeIntParam(raw)`: the parsed value when it is a
      non-negative safe integer; `None` for a missing or blank parameter and
      for anything else. */
  function ParseNullableNonNegativeIntParam(raw: Option<string>): (r: Option<int>)
    ensures r.Some? ==> 0 <= r.value <= MAX_SAFE_INTEGER
    ensures raw.None? || Trim(raw.value) == [] ==> r == None
    ensures raw.Some? && ParseNumber(raw.value).None? ==> r == None
    ensures raw.Some? && Trim(raw.value) != [] && ParseNumber(raw.value).Some? ==>
      var n := ParseNumber(raw.value).value;
      r == if 0 <= n <= MAX_SAFE_INTEGER then Some(n) else None
  {
    if raw.None? || Trim(raw.value) == [] then None
    else
      var parsed := ParseNumber(raw.value);
      if parsed.None? || !IsSafeInteger(Int(parsed.value)) || parsed.value < 0 then None
      else Some(parsed.value)
  }

  /** `String(n)` reads back as `n` exactly when `n` is a non-negative safe
      integer. */
  lemma ParseNullableNonNegativeIntParamOfIntToString(n: int)
    ensures ParseNullableNonNegativeIntParam(Some(IntToString(n)))
         == if 0 <= n <= MAX_SAFE_INTEGER then Some(n) else None
  {
    ParseIntToString(n);
    assert Trim(IntToString(n)) == IntToString(n);
  }
}
