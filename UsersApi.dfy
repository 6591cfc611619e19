/** src/services/usersApi.ts: the list-filter normalisation and the query
    string sent with `GET /users`. */
module UsersApi {
  import opened Wrappers
  import opened Strings
  import opened Seqs
  import opened StringOrder
  import opened Numbers
  import opened UrlParams
  import opened SearchParams

  /** `UsersListQuery`: every field optional. `page` and `pageSize` are
      present exactly when `typeof … === "number"`. */
  datatype UsersListQuery = UsersListQuery(
    name: Option<string>,
    email: Option<string>,
    emailProviders: Option<seq<string>>,
    roles: Option<seq<string>>,
    sellerProfile: Option<string>,
    page: Option<JsNumber>,
    pageSize: Option<JsNumber>)

  const PAGE_ERROR := "page must be a positive safe integer"
  const PAGE_SIZE_ERROR := "pageSize must be a positive safe integer"

  function TrimLower(v: string): string { ToLower(Trim(v)) }

  /** `normalizeCsvValues(values)`: trimmed, lowercased, non-empty values
      without duplicates, sorted. */
  function NormalizeCsvValues(values: seq<string>): (r: seq<string>)
    ensures StrictlySorted(r)
    ensures forall x :: x in r <==> x in CleanSet(values, true)
    ensures forall i :: 0 <= i < |r| ==> IsCleanEntry(r[i], true)
  {
    var kept := Filter(Map(values, TrimLower), NonBlank);
    var distinct := Dedup(kept);
    SortedCsv(values, kept, distinct);
    SortStrings(distinct)
  }

  lemma SortedCsv(values: seq<string>, kept: seq<string>, distinct: seq<string>)
    requires kept == Filter(Map(values, TrimLower), NonBlank) && distinct == Dedup(kept)
    ensures StrictlySorted(SortStrings(distinct))
    ensures forall x :: x in SortStrings(distinct) <==> x in CleanSet(values, true)
    ensures forall i :: 0 <= i < |SortStrings(distinct)| ==> IsCleanEntry(SortStrings(distinct)[i], true)
  {
    SortDistinct(distinct);
    DedupMembers(kept);
    SortedCsvMembers(values, kept, SortStrings(distinct));
  }

  lemma SortedCsvMembers(values: seq<string>, kept: seq<string>, r: seq<string>)
    requires kept == Filter(Map(values, TrimLower), NonBlank)
    requires forall x :: x in r <==> x in kept
    ensures forall x :: x in r <==> x in CleanSet(values, true)
    ensures forall i :: 0 <= i < |r| ==> IsCleanEntry(r[i], true)
  {
    CsvKeptExact(values, kept);
    SameMembers(r, kept, CleanSet(values, true));
    forall i | 0 <= i < |r| ensures IsCleanEntry(r[i], true) {
      assert r[i] in r;
    }
  }

  /** The values the lowercasing chain keeps are exactly the clean set. */
  lemma CsvKeptExact(values: seq<string>, kept: seq<string>)
    requires kept == Filter(Map(values, TrimLower), NonBlank)
    ensures forall x :: x in kept <==> x in CleanSet(values, true)
    ensures forall x :: x in kept ==> IsCleanEntry(x, true)
  {
    CsvKeptComplete(values, kept);
    CsvKeptSound(values, kept);
    forall x | x in kept ensures x in CleanSet(values, true) && IsCleanEntry(x, true) {
      var i :| 0 <= i < |kept| && kept[i] == x;
    }
  }

  lemma CsvKeptSound(values: seq<string>, kept: seq<string>)
    requires kept == Filter(Map(values, TrimLower), NonBlank)
    ensures forall i :: 0 <= i < |kept| ==> IsCleanEntry(kept[i], true) && kept[i] in CleanSet(values, true)
  {
    var mapped := Map(values, TrimLower);
    forall i | 0 <= i < |kept|
      ensures IsCleanEntry(kept[i], true) && kept[i] in CleanSet(values, true)
    {
      assert kept[i] in mapped && NonBlank(kept[i]);
      var k :| 0 <= k < |mapped| && mapped[k] == kept[i];
      assert |Trim(values[k])| == |kept[i]|;
      assert kept[i] == Clean(values[k], true);
      assert values[k] in values;
    }
  }

  lemma CsvKeptComplete(values: seq<string>, kept: seq<string>)
    requires kept == Filter(Map(values, TrimLower), NonBlank)
    ensures forall x :: x in CleanSet(values, true) ==> x in kept
  {
    forall x | x in CleanSet(values, true) ensures x in kept {
      var v :| v in values && Trim(v) != [] && x == Clean(v, true);
      var k :| 0 <= k < |values| && values[k] == v;
      LoweredSurvives(values, kept, k);
    }
  }

  lemma LoweredSurvives(values: seq<string>, kept: seq<string>, k: int)
    requires kept == Filter(Map(values, TrimLower), NonBlank)
    requires 0 <= k < |values| && Trim(values[k]) != []
    ensures TrimLower(values[k]) in kept
  {
    var mapped := Map(values, TrimLower);
    assert |mapped[k]| == |Trim(values[k])|;
    assert mapped[k] == TrimLower(values[k]) && NonBlank(mapped[k]);
  }

  /** `normalizeCsvValues` is `normalizeSelection` with its default
      lowercasing, although it lowercases before filtering. */
  lemma NormalizeCsvValuesIsNormalizeSelection(values: seq<string>)
    ensures NormalizeCsvValues(values) == NormalizeSelection(values, true)
  {
    StrictlySortedUnique(NormalizeCsvValues(values), NormalizeSelection(values, true));
  }

  /** A `page` or `pageSize` the builder refuses: a number that is not a
      safe integer, or is below 1. */
  predicate IsBadPage(p: Option<JsNumber>)
  {
    p.Some? && (!IsSafeInteger(p.value) || Below(p.value, 1))
  }

  /** `String(n)` for a safe integer. */
  function SafeIntegerText(n: JsNumber): string
    requires IsSafeInteger(n)
  {
    IntToString(n.n)
  }

  /** The position of each parameter name in the emitted list. */
  function UsersKeyRank(k: string): nat
  {
    if k == "name" then 0
    else if k == "email" then 1
    else if k == "seller_profile" then 2
    else if k == "email_providers" then 3
    else if k == "roles" then 4
    else if k == "page" then 5
    else if k == "pageSize" then 6
    else 7
  }

  lemma KeyRanks()
    ensures UsersKeyRank("name") == 0 && UsersKeyRank("email") == 1
    ensures UsersKeyRank("seller_profile") == 2 && UsersKeyRank("email_providers") == 3
    ensures UsersKeyRank("roles") == 4 && UsersKeyRank("page") == 5
    ensures UsersKeyRank("pageSize") == 6
  {
    assert "roles"[0] != "email"[0];
    assert "page"[0] != "name"[0];
  }

  /** The text value a trimmed string field contributes, if any. */
  function TextValue(field: Option<string>): Option<string>
  {
    if field.Some? && Trim(field.value) != [] then Some(Trim(field.value)) else None
  }

  /** The value a list field contributes, if any. */
  function ListValue(field: Option<seq<string>>): Option<string>
  {
    if field.Some? && NormalizeCsvValues(field.value) != [] then Some(Join(NormalizeCsvValues(field.value), ","))
    else None
  }

  /** The value `page` or `pageSize` contributes: `String(n)`. */
  function PageValue(p: Option<JsNumber>): Option<string>
  {
    if p.Some? && !IsBadPage(p) then Some(SafeIntegerText(p.value)) else None
  }

  /** Every parameter the builder may set, in the order it sets them. */
  function UsersEntries(q: UsersListQuery): seq<Entry>
  {
    [("name", TextValue(q.name)),
     ("email", TextValue(q.email)),
     ("seller_profile", TextValue(q.sellerProfile)),
     ("email_providers", ListValue(q.emailProviders)),
     ("roles", ListValue(q.roles)),
     ("page", PageValue(q.page)),
     ("pageSize", PageValue(q.pageSize))]
  }

  lemma UsersEntriesRanked(q: UsersListQuery)
    ensures EntriesRanked(UsersEntries(q), UsersKeyRank)
  {
    KeyRanks();
    var e := UsersEntries(q);
    forall i | 0 <= i < |e| ensures UsersKeyRank(e[i].0) == i {}
  }

  /** The parameters an accepted query produces, in the order the
      builder sets them. */
  function UsersQueryPairs(q: UsersListQuery): seq<Param>
    requires !IsBadPage(q.page) && !IsBadPage(q.pageSize)
  {
    Pair("name", TextValue(q.name))
    + Pair("email", TextValue(q.email))
    + Pair("seller_profile", TextValue(q.sellerProfile))
    + Pair("email_providers", ListValue(q.emailProviders))
    + Pair("roles", ListValue(q.roles))
    + Pair("page", PageValue(q.page))
    + Pair("pageSize", PageValue(q.pageSize))
  }

  /** The same pairs, read as the present entries of the candidate list. */
  lemma UsersQueryPairsArePresent(q: UsersListQuery)
    requires !IsBadPage(q.page) && !IsBadPage(q.pageSize)
    ensures UsersQueryPairs(q) == Present(UsersEntries(q))
  {
    var e := UsersEntries(q);
    assert Present(e[6..]) == Pair(e[6].0, e[6].1) + Present(e[7..]);
    assert Present(e[5..]) == Pair(e[5].0, e[5].1) + Present(e[6..]);
    assert Present(e[4..]) == Pair(e[4].0, e[4].1) + Present(e[5..]);
    assert Present(e[3..]) == Pair(e[3].0, e[3].1) + Present(e[4..]);
    assert Present(e[2..]) == Pair(e[2].0, e[2].1) + Present(e[3..]);
    assert Present(e[1..]) == Pair(e[1].0, e[1].1) + Present(e[2..]);
    assert Present(e) == Pair(e[0].0, e[0].1) + Present(e[1..]);
    assert Present(e[7..]) == [];
    Reassociate(Pair(e[0].0, e[0].1), Pair(e[1].0, e[1].1), Pair(e[2].0, e[2].1), Pair(e[3].0, e[3].1),
                Pair(e[4].0, e[4].1), Pair(e[5].0, e[5].1), Pair(e[6].0, e[6].1));
  }

  lemma Reassociate(p0: seq<Param>, p1: seq<Param>, p2: seq<Param>, p3: seq<Param>,
                    p4: seq<Param>, p5: seq<Param>, p6: seq<Param>)
    ensures p0 + p1 + p2 + p3 + p4 + p5 + p6 == p0 + (p1 + (p2 + (p3 + (p4 + (p5 + (p6 + []))))))
  {
    assert p6 + [] == p6;
  }

  /** Appending `k`'s pair adds no name but `k`. */
  lemma KeysAppendPair(ps: seq<Param>, k: string, v: Option<string>)
    ensures forall j :: j in Keys(ps + Pair(k, v)) ==> j in Keys(ps) || j == k
  {
    var r := ps + Pair(k, v);
    forall j | j in Keys(r) ensures j in Keys(ps) || j == k {
      var i :| 0 <= i < |r| && Keys(r)[i] == j;
      if i < |ps| {
        assert Keys(ps)[i] == j;
      }
    }
  }

  /** One `const v = field?.trim(); if (v) params.set(k, v)` block. */
  method SetTrimmed(ps: seq<Param>, k: string, field: Option<string>) returns (r: seq<Param>)
    requires k !in Keys(ps)
    ensures r == ps + Pair(k, TextValue(field))
    ensures forall j :: j in Keys(r) ==> j in Keys(ps) || j == k
  {
    KeysAppendPair(ps, k, TextValue(field));
    r := ps;
    if field.Some? {
      var v := Trim(field.value);
      if v != [] {
        r := Set(r, k, v);
      }
    }
  }

  /** One `if (Array.isArray(field))` block: the normalised list, joined
      with commas, when it is non-empty. */
  method SetList(ps: seq<Param>, k: string, field: Option<seq<string>>) returns (r: seq<Param>)
    requires k !in Keys(ps)
    ensures r == ps + Pair(k, ListValue(field))
    ensures forall j :: j in Keys(r) ==> j in Keys(ps) || j == k
  {
    KeysAppendPair(ps, k, ListValue(field));
    r := ps;
    if field.Some? {
      var values := NormalizeCsvValues(field.value);
      if |values| > 0 {
        r := Set(r, k, Join(values, ","));
      }
    }
  }

  /** One `if (typeof field === "number")` block: `String(n)` for a
      positive safe integer, the error `message` for any other number. */
  method SetPage(ps: seq<Param>, k: string, field: Option<JsNumber>, message: string)
    returns (r: Result<seq<Param>, string>)
    requires k !in Keys(ps)
    ensures IsBadPage(field) ==> r == Failure(message)
    ensures !IsBadPage(field) ==> r == Success(ps + Pair(k, PageValue(field)))
    ensures r.Success? ==> forall j :: j in Keys(r.value) ==> j in Keys(ps) || j == k
  {
    KeysAppendPair(ps, k, PageValue(field));
    if field.Some? {
      if !IsSafeInteger(field.value) || Below(field.value, 1) {
        return Failure(message);
      }
      return Success(Set(ps, k, SafeIntegerText(field.value)));
    }
    assert ps + Pair(k, PageValue(field)) == ps;
    return Success(ps);
  }

  /** `buildUsersQueryString(query)`: `params` is the `URLSearchParams`
      object as filled, `r` the returned string or the thrown message.
      The page is checked before the page size, and a refused number
      discards everything set so far. */
  method BuildUsersQueryString(query: Option<UsersListQuery>) returns (r: Result<string, string>, params: seq<Param>)
    ensures query.None? ==> r == Success("") && params == []
    ensures query.Some? && IsBadPage(query.value.page) ==> r == Failure(PAGE_ERROR) && params == []
    ensures query.Some? && !IsBadPage(query.value.page) && IsBadPage(query.value.pageSize) ==>
      r == Failure(PAGE_SIZE_ERROR) && params == []
    ensures r.Success? <==> query.None? || (!IsBadPage(query.value.page) && !IsBadPage(query.value.pageSize))
    ensures query.Some? && r.Success? ==> params == UsersQueryPairs(query.value)
    ensures r.Success? ==> r.value == QuerySuffix(params)
  {
    params := [];
    if query.None? {
      return Success(""), params;
    }
    var q := query.value;
    KeyRanks();

    params := SetTrimmed(params, "name", q.name);
    assert params == Pair("name", TextValue(q.name));
    params := SetTrimmed(params, "email", q.email);
    params := SetTrimmed(params, "seller_profile", q.sellerProfile);
    params := SetList(params, "email_providers", q.emailProviders);
    params := SetList(params, "roles", q.roles);

    var withPage := SetPage(params, "page", q.page, PAGE_ERROR);
    if withPage.Failure? {
      return Failure(withPage.error), [];
    }
    params := withPage.value;

    var withPageSize := SetPage(params, "pageSize", q.pageSize, PAGE_SIZE_ERROR);
    if withPageSize.Failure? {
      return Failure(withPageSize.error), [];
    }
    params := withPageSize.value;

    r := Success(QuerySuffix(params));
  }

  /** The emitted parameters come in the fixed order `name`, `email`,
      `seller_profile`, `email_providers`, `roles`, `page`, `pageSize`,
      each at most once. */
  lemma UsersQueryPairsOrdered(q: UsersListQuery)
    requires !IsBadPage(q.page) && !IsBadPage(q.pageSize)
    ensures KeysOrderedBy(UsersQueryPairs(q), UsersKeyRank)
  {
    UsersEntriesRanked(q);
    UsersQueryPairsArePresent(q);
    PresentOrdered(UsersEntries(q), UsersKeyRank);
  }

  /** Each parameter carries the value its field contributes: the trimmed
      text, the normalised list joined with commas, or `String(n)`; a
      field that contributes nothing is absent. */
  lemma UsersQueryPairsLookup(q: UsersListQuery)
    requires !IsBadPage(q.page) && !IsBadPage(q.pageSize)
    ensures Lookup(UsersQueryPairs(q), "name") == TextValue(q.name)
    ensures Lookup(UsersQueryPairs(q), "email") == TextValue(q.email)
    ensures Lookup(UsersQueryPairs(q), "seller_profile") == TextValue(q.sellerProfile)
    ensures Lookup(UsersQueryPairs(q), "email_providers") == ListValue(q.emailProviders)
    ensures Lookup(UsersQueryPairs(q), "roles") == ListValue(q.roles)
    ensures Lookup(UsersQueryPairs(q), "page") == PageValue(q.page)
    ensures Lookup(UsersQueryPairs(q), "pageSize") == PageValue(q.pageSize)
  {
    UsersEntriesRanked(q);
    UsersQueryPairsArePresent(q);
    var e := UsersEntries(q);
    LookupPresentAt(e, UsersKeyRank, 0);
    LookupPresentAt(e, UsersKeyRank, 1);
    LookupPresentAt(e, UsersKeyRank, 2);
    LookupPresentAt(e, UsersKeyRank, 3);
    LookupPresentAt(e, UsersKeyRank, 4);
    LookupPresentAt(e, UsersKeyRank, 5);
    LookupPresentAt(e, UsersKeyRank, 6);
  }

  /** A query none of whose fields contributes produces no parameter, and
      so the empty string without a `?`. */
  lemma UsersQueryPairsEmpty(q: UsersListQuery)
    requires !IsBadPage(q.page) && !IsBadPage(q.pageSize)
    ensures UsersQueryPairs(q) == [] <==>
      && TextValue(q.name).None? && TextValue(q.email).None? && TextValue(q.sellerProfile).None?
      && ListValue(q.emailProviders).None? && ListValue(q.roles).None?
      && q.page.None? && q.pageSize.None?
    ensures QuerySuffix(UsersQueryPairs(q)) == "" <==> UsersQueryPairs(q) == []
  {
    UsersQueryPairsLookup(q);
  }

  /** The emitted `page` value reads back, through the shared URL parser,
      as the page number itself. */
  lemma PageTextRoundTrip(p: JsNumber, fallback: int)
    requires IsSafeInteger(p) && !Below(p, 1)
    ensures ParsePositiveIntParam(Some(SafeIntegerText(p)), fallback, 1, MAX_SAFE_INTEGER) == p.n
  {
    ParsePositiveIntParamOfIntToString(p.n, fallback, 1, MAX_SAFE_INTEGER);
  }

  /** The emitted list value reads back, through `parseCsvParam`, as the
      normalised list, provided no value holds a comma; an empty normalised
      list emits nothing, which reads back as the empty list. */
  lemma ListValueRoundTrip(values: seq<string>)
    requires forall i :: 0 <= i < |values| ==> ',' !in values[i]
    ensures ParseCsvParam(ListValue(Some(values)), true) == NormalizeCsvValues(values)
  {
    var r := NormalizeCsvValues(values);
    if r == [] {
      return;
    }
    assert ListValue(Some(values)) == Some(Join(r, ","));
    NormalizeCsvValuesIsNormalizeSelection(values);
    CommaFree(values, true);
    forall i | 0 <= i < |r| ensures IsCleanEntry(r[i], true) && ',' !in r[i] {
    }
    ParseCsvParamJoin(r, true);
  }
}
