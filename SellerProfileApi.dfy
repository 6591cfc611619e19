/** The seller-profile service client: how a profile selector becomes a
    query string, how the request-list filter becomes one, and the rule
    that every selector-addressed call checks its selector before it sends
    anything. The HTTP exchange itself is a parameter. */
module SellerProfileApi {
  import opened Wrappers
  import opened Strings
  import opened Numbers
  import opened UrlParams
  import opened UsersApi

  const SELECTOR_ERROR := "Selector requires id or slug"

  /** `{ id?: string; slug?: string }` */
  datatype Selector = Selector(id: Option<string>, slug: Option<string>)

  /** The value the slug contributes: trimmed and lowercased, if anything
      is left after trimming. */
  function SlugValue(field: Option<string>): Option<string>
  {
    if field.Some? && Trim(field.value) != [] then Some(ToLower(Trim(field.value))) else None
  }

  /** The pairs `buildSelectorQuery` sets: `id` first, then `slug`. */
  function SelectorPairs(sel: Selector): seq<Param>
  {
    Pair("id", TextValue(sel.id)) + Pair("slug", SlugValue(sel.slug))
  }

  /** One `if (field?.trim()) params.set(k, field.trim().toLowerCase())`
      statement. */
  method SetLowered(ps: seq<Param>, k: string, field: Option<string>) returns (r: seq<Param>)
    requires k !in Keys(ps)
    ensures r == ps + Pair(k, SlugValue(field))
    ensures forall j :: j in Keys(r) ==> j in Keys(ps) || j == k
  {
    KeysAppendPair(ps, k, SlugValue(field));
    r := ps;
    if field.Some? {
      var v := Trim(field.value);
      if v != [] {
        r := Set(r, k, ToLower(v));
      }
    }
  }

  /** One `if (typeof field === "number") params.set(k, String(field))`
      statement. */
  method SetNumber(ps: seq<Param>, k: string, field: Option<int>) returns (r: seq<Param>)
    requires k !in Keys(ps)
    ensures r == ps + Pair(k, NumberValue(field))
    ensures forall j :: j in Keys(r) ==> j in Keys(ps) || j == k
  {
    KeysAppendPair(ps, k, NumberValue(field));
    r := ps;
    if field.Some? {
      r := Set(r, k, IntToString(field.value));
    }
  }

  /** `buildSelectorQuery(selector)`: `params` is the `URLSearchParams`
      object as filled, `r` the query string or the thrown message. */
  method BuildSelectorQuery(sel: Selector) returns (r: Result<string, string>, params: seq<Param>)
    ensures params == SelectorPairs(sel)
    ensures r.Failure? <==> params == []
    ensures r.Failure? ==> r.error == SELECTOR_ERROR
    ensures r.Success? ==> r.value == Serialize(params)
  {
    var p1 := SetTrimmed([], "id", sel.id);
    assert p1 == Pair("id", TextValue(sel.id)) by {
      assert [] + Pair("id", TextValue(sel.id)) == Pair("id", TextValue(sel.id));
    }
    assert "slug" != "id";
    assert "slug" !in Keys(p1);
    params := SetLowered(p1, "slug", sel.slug);
    assert params == SelectorPairs(sel);
    if Serialize(params) == [] {
      return Failure(SELECTOR_ERROR), params;
    }
    r := Success(Serialize(params));
  }

  /** A selector is refused exactly when both the id and the slug are
      absent or blank. */
  lemma SelectorRefusedIffBlank(sel: Selector)
    ensures SelectorPairs(sel) == [] <==>
      (sel.id.None? || Trim(sel.id.value) == []) && (sel.slug.None? || Trim(sel.slug.value) == [])
  {
  }

  function SelectorKeyRank(k: string): nat
  {
    if k == "id" then 0 else if k == "slug" then 1 else 2
  }

  function SelectorEntries(sel: Selector): seq<Entry>
  {
    [("id", TextValue(sel.id)), ("slug", SlugValue(sel.slug))]
  }

  lemma SelectorEntriesRanked(sel: Selector)
    ensures EntriesRanked(SelectorEntries(sel), SelectorKeyRank)
    ensures SelectorPairs(sel) == Present(SelectorEntries(sel))
  {
    assert "slug"[0] != "id"[0];
    PresentTwo(("id", TextValue(sel.id)), ("slug", SlugValue(sel.slug)));
  }

  /** Each name carries its field's cleaned value, and `id` precedes
      `slug` when both are set. */
  lemma SelectorPairsLookup(sel: Selector)
    ensures Lookup(SelectorPairs(sel), "id") == TextValue(sel.id)
    ensures Lookup(SelectorPairs(sel), "slug") == SlugValue(sel.slug)
    ensures KeysOrderedBy(SelectorPairs(sel), SelectorKeyRank)
  {
    SelectorEntriesRanked(sel);
    var e := SelectorEntries(sel);
    LookupPresentAt(e, SelectorKeyRank, 0);
    LookupPresentAt(e, SelectorKeyRank, 1);
    PresentOrdered(e, SelectorKeyRank);
  }

  /** The slug sent is non-empty, trimmed and free of upper-case letters. */
  lemma SlugValueCanonical(field: Option<string>)
    requires SlugValue(field).Some?
    ensures SlugValue(field).value != [] && IsTrimmed(SlugValue(field).value) && IsLower(SlugValue(field).value)
  {
  }

  lemma TextValueIdempotent(field: Option<string>)
    ensures TextValue(TextValue(field)) == TextValue(field)
  {
    if TextValue(field).Some? {
      var t := TextValue(field).value;
      assert Trim(t) == t;
    }
  }

  lemma SlugValueIdempotent(field: Option<string>)
    ensures SlugValue(SlugValue(field)) == SlugValue(field)
  {
    if SlugValue(field).Some? {
      var t := SlugValue(field).value;
      assert Trim(t) == t;
      assert ToLower(t) == t;
    }
  }

  /** Cleaning a selector's fields once is enough: a selector made of the
      values sent produces the same query. */
  lemma SelectorPairsIdempotent(sel: Selector)
    ensures SelectorPairs(Selector(TextValue(sel.id), SlugValue(sel.slug))) == SelectorPairs(sel)
  {
    TextValueIdempotent(sel.id);
    SlugValueIdempotent(sel.slug);
  }

  // ---------------------------------------------------------------------
  // The request-list query

  /** The options of `fetchSellerProfileRequests`; absent options are all
      `None`. Page numbers are integers. */
  datatype RequestsFilter = RequestsFilter(status: Option<string>, page: Option<int>, pageSize: Option<int>)

  function NumberValue(field: Option<int>): Option<string>
  {
    if field.Some? then Some(IntToString(field.value)) else None
  }

  /** The pairs the request-list builder sets: `status`, `page`, `pageSize`. */
  function RequestsPairs(o: RequestsFilter): seq<Param>
  {
    Pair("status", SlugValue(o.status)) + Pair("page", NumberValue(o.page)) + Pair("pageSize", NumberValue(o.pageSize))
  }

  /** The parameter building of `fetchSellerProfileRequests`: `query` is
      the suffix appended to the request path. */
  method BuildRequestsQuery(o: RequestsFilter) returns (query: string, params: seq<Param>)
    ensures params == RequestsPairs(o)
    ensures query == QuerySuffix(params)
  {
    RequestsKeyNames();
    var p1 := SetLowered([], "status", o.status);
    assert "page" !in Keys(p1);
    var p2 := SetNumber(p1, "page", o.page);
    assert "pageSize" !in Keys(p2);
    params := SetNumber(p2, "pageSize", o.pageSize);
    assert [] + Pair("status", SlugValue(o.status)) == Pair("status", SlugValue(o.status));
    query := QuerySuffix(params);
  }

  lemma RequestsKeyNames()
    ensures "page" != "status" && "pageSize" != "status" && "pageSize" != "page"
  {
    assert "page"[0] != "status"[0];
    assert |"pageSize"| != |"page"|;
  }

  function RequestsKeyRank(k: string): nat
  {
    if k == "status" then 0 else if k == "page" then 1 else if k == "pageSize" then 2 else 3
  }

  function RequestsEntries(o: RequestsFilter): seq<Entry>
  {
    [("status", SlugValue(o.status)), ("page", NumberValue(o.page)), ("pageSize", NumberValue(o.pageSize))]
  }

  lemma RequestsEntriesRanked(o: RequestsFilter)
    ensures EntriesRanked(RequestsEntries(o), RequestsKeyRank)
    ensures RequestsPairs(o) == Present(RequestsEntries(o))
  {
    RequestsKeyNames();
    PresentThree(("status", SlugValue(o.status)), ("page", NumberValue(o.page)), ("pageSize", NumberValue(o.pageSize)));
  }

  /** Each name carries its option's value (the trimmed, lowercased
      status, and `String(n)` for each page number), and the names come
      in the order `status`, `page`, `pageSize`, each at most once. */
  lemma RequestsPairsLookup(o: RequestsFilter)
    ensures Lookup(RequestsPairs(o), "status") == SlugValue(o.status)
    ensures Lookup(RequestsPairs(o), "page") == NumberValue(o.page)
    ensures Lookup(RequestsPairs(o), "pageSize") == NumberValue(o.pageSize)
    ensures KeysOrderedBy(RequestsPairs(o), RequestsKeyRank)
  {
    RequestsEntriesRanked(o);
    var e := RequestsEntries(o);
    LookupPresentAt(e, RequestsKeyRank, 0);
    LookupPresentAt(e, RequestsKeyRank, 1);
    LookupPresentAt(e, RequestsKeyRank, 2);
    PresentOrdered(e, RequestsKeyRank);
  }

  /** Without any option that contributes, the path gets no `?` at all. */
  lemma RequestsQueryEmpty(o: RequestsFilter)
    ensures QuerySuffix(RequestsPairs(o)) == "" <==>
      SlugValue(o.status).None? && o.page.None? && o.pageSize.None?
  {
  }

  /** Each page number sent reads back as that number. */
  lemma RequestsPageRoundTrip(o: RequestsFilter)
    requires o.page.Some?
    ensures Lookup(RequestsPairs(o), "page").Some?
    ensures ParseNumber(Lookup(RequestsPairs(o), "page").value) == o.page
  {
    RequestsPairsLookup(o);
    ParseIntToString(o.page.value);
  }

  // ---------------------------------------------------------------------
  // Requests sent

  datatype Verb = Get | Post | Put | Patch | Delete

  /** A request as sent: verb, path below the API origin, and query
      suffix. */
  datatype Request = Request(verb: Verb, path: string, query: string)

  /** The operations that address a profile by selector. */
  datatype SelectorCall =
    | FetchProfile | UpdateProfile | FetchMembers | FetchInvites | CreateInvite
    | StartOwnershipTransfer | FetchEmailProvider | UpsertEmailProvider | DeleteEmailProvider

  function Route(call: SelectorCall): (Verb, string)
  {
    match call
    case FetchProfile => (Get, "/shop/seller-profile")
    case UpdateProfile => (Patch, "/shop/seller-profile")
    case FetchMembers => (Get, "/shop/seller-profile/members")
    case FetchInvites => (Get, "/shop/seller-profile/invites")
    case CreateInvite => (Post, "/shop/seller-profile/invite")
    case StartOwnershipTransfer => (Post, "/shop/seller-profile/ownership-transfer")
    case FetchEmailProvider => (Get, "/shop/seller-profile/email-provider")
    case UpsertEmailProvider => (Put, "/shop/seller-profile/email-provider")
    case DeleteEmailProvider => (Delete, "/shop/seller-profile/email-provider")
  }

  /** The client as seen from the network: the requests it has sent, in
      order. The server's answer to a request is passed in. */
  class SellerProfileClient {
    var sent: seq<Request>

    constructor()
      ensures sent == []
    {
      sent := [];
    }

    /** Any selector-addressed operation: the selector is checked first,
        and a refused selector fails without sending anything. */
    method CallWithSelector(call: SelectorCall, sel: Selector, response: Result<string, string>)
      returns (r: Result<string, string>)
      modifies this
      ensures SelectorPairs(sel) == [] ==> r == Failure(SELECTOR_ERROR) && sent == old(sent)
      ensures SelectorPairs(sel) != [] ==>
        r == response
        && sent == old(sent) + [Request(Route(call).0, Route(call).1, "?" + Serialize(SelectorPairs(sel)))]
    {
      var query, params := BuildSelectorQuery(sel);
      if query.Failure? {
        return Failure(query.error);
      }
      sent := sent + [Request(Route(call).0, Route(call).1, "?" + query.value)];
      r := response;
    }

    /** `fetchSellerProfileRequests`: always sent, with a query suffix
        only when some option contributes. */
    method FetchRequests(o: RequestsFilter, response: Result<string, string>) returns (r: Result<string, string>)
      modifies this
      ensures r == response
      ensures sent == old(sent) + [Request(Get, "/shop/seller-profile/requests", QuerySuffix(RequestsPairs(o)))]
    {
      var query, params := BuildRequestsQuery(o);
      sent := sent + [Request(Get, "/shop/seller-profile/requests", query)];
      r := response;
    }
  }

  /** No selector-addressed request ever goes out with an empty query:
      every request `CallWithSelector` sends names an id or a slug. */
  lemma SentSelectorQueryNamesProfile(sel: Selector)
    requires SelectorPairs(sel) != []
    ensures Lookup(SelectorPairs(sel), "id").Some? || Lookup(SelectorPairs(sel), "slug").Some?
  {
    SelectorPairsLookup(sel);
  }
}
