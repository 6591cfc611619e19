/** The shop catalogue view: the tag list offered as filters, the live
    filter chain (search, tags, price bounds), the comparator-driven sort of
    the filtered array, and the filter state the view keeps. */
module Shop {
  import opened Wrappers
  import opened Strings
  import opened Seqs
  import opened StringOrder

  /** A catalogue entry. Author and image fields are only rendered and are
      not part of this model. */
  datatype Product = Product(
    id: string,
    slug: string,
    name: string,
    description: Option<string>,
    priceCents: int,
    currency: string,
    tags: seq<string>,
    isActive: bool,
    createdAt: int,
    updatedAt: int)

  datatype SortKey = Date | PriceAsc | PriceDesc | Name

  // ---------------------------------------------------------------------
  // Available tags

  /** `products.flatMap(product => product.tags)`. */
  function AllTags(products: seq<Product>): (r: seq<string>)
    ensures forall x :: x in r <==> exists p :: p in products && x in p.tags
  {
    if products == [] then []
    else
      assert forall p :: p in products <==> p == products[0] || p in products[1..];
      products[0].tags + AllTags(products[1..])
  }

  /** The tag filter list: every tag of every product, once each, in
      ascending order. */
  function AvailableTags(products: seq<Product>): (r: seq<string>)
    ensures StrictlySorted(r)
    ensures forall x :: x in r <==> exists p :: p in products && x in p.tags
  {
    var all := AllTags(products);
    DedupMembers(all);
    SortDistinct(Dedup(all));
    SortStrings(Dedup(all))
  }

  /** The tag list depends only on which products are loaded, not on their
      order or multiplicity. */
  lemma AvailableTagsIgnoresOrder(a: seq<Product>, b: seq<Product>)
    requires forall p :: p in a <==> p in b
    ensures AvailableTags(a) == AvailableTags(b)
  {
    StrictlySortedUnique(AvailableTags(a), AvailableTags(b));
  }

  // ---------------------------------------------------------------------
  // The filter chain

  /** The text the search looks in: name, a space, and the description (or
      nothing), lowercased. */
  function Haystack(p: Product): string
  {
    ToLower(p.name + " " + (if p.description.Some? then p.description.value else ""))
  }

  /** The search step, given the already trimmed and lowercased query. */
  predicate SearchMatches(p: Product, query: string)
  {
    query == [] || Contains(Haystack(p), query)
  }

  predicate HasAllTags(p: Product, selected: seq<string>)
  {
    |selected| == 0 || forall t :: t in selected ==> t in p.tags
  }

  /** Price bounds are whole currency units; prices are in cents. */
  predicate AboveMin(p: Product, minPrice: Option<int>)
  {
    minPrice.Some? ==> p.priceCents >= minPrice.value * 100
  }

  predicate BelowMax(p: Product, maxPrice: Option<int>)
  {
    maxPrice.Some? ==> p.priceCents <= maxPrice.value * 100
  }

  /** A product survives the whole chain. */
  predicate Matches(p: Product, search: string, selected: seq<string>,
                    minPrice: Option<int>, maxPrice: Option<int>)
  {
    SearchMatches(p, ToLower(Trim(search))) && HasAllTags(p, selected)
    && AboveMin(p, minPrice) && BelowMax(p, maxPrice)
  }

  /** The four filters applied one after another, as the view does. The
      result keeps the catalogue order and holds exactly the products that
      pass every filter. */
  function Matching(products: seq<Product>, search: string, selected: seq<string>,
                    minPrice: Option<int>, maxPrice: Option<int>): (r: seq<Product>)
    ensures IsSubseq(r, products)
    ensures forall i :: 0 <= i < |r| ==> Matches(r[i], search, selected, minPrice, maxPrice)
    ensures forall p :: p in products && Matches(p, search, selected, minPrice, maxPrice) ==> p in r
  {
    var query := ToLower(Trim(search));
    FilterChain(products, p => SearchMatches(p, query), p => HasAllTags(p, selected),
                p => AboveMin(p, minPrice), p => BelowMax(p, maxPrice))
  }

  /** Four `.filter` calls in a row: an ordered selection of exactly the
      elements passing all four tests. */
  function FilterChain<T(==,!new)>(s: seq<T>, p1: T -> bool, p2: T -> bool, p3: T -> bool, p4: T -> bool): (r: seq<T>)
    ensures IsSubseq(r, s)
    ensures forall x :: x in r <==> x in s && p1(x) && p2(x) && p3(x) && p4(x)
  {
    var s1 := Filter(s, p1);
    var s2 := Filter(s1, p2);
    var s3 := Filter(s2, p3);
    var s4 := Filter(s3, p4);
    FilterIsSubseq(s, p1);
    FilterIsSubseq(s1, p2);
    FilterIsSubseq(s2, p3);
    FilterIsSubseq(s3, p4);
    SubseqTransitive(s3, s2, s1);
    SubseqTransitive(s4, s3, s1);
    SubseqTransitive(s4, s1, s);
    s4
  }

  /** With every filter cleared the chain keeps the whole catalogue. */
  lemma MatchingWithoutFilters(products: seq<Product>, search: string)
    requires Trim(search) == []
    ensures Matching(products, search, [], None, None) == products
  {
    var query := ToLower(Trim(search));
    assert query == [];
    FilterKeepsAll(products, p => SearchMatches(p, query));
    FilterKeepsAll(products, p => HasAllTags(p, []));
    FilterKeepsAll(products, p => AboveMin(p, None));
    FilterKeepsAll(products, p => BelowMax(p, None));
  }

  /** A minimum above the maximum leaves nothing. */
  lemma MinAboveMaxIsEmpty(products: seq<Product>, search: string, selected: seq<string>,
                           minPrice: int, maxPrice: int)
    requires minPrice > maxPrice
    ensures Matching(products, search, selected, Some(minPrice), Some(maxPrice)) == []
  {
    forall p: Product ensures !(AboveMin(p, Some(minPrice)) && BelowMax(p, Some(maxPrice))) {
      assert minPrice * 100 > maxPrice * 100;
    }
  }

  /** With a query left after trimming, every result contains it (in
      lowercase) in its name or description. */
  lemma SearchedResultsContainQuery(products: seq<Product>, search: string, selected: seq<string>,
                                    minPrice: Option<int>, maxPrice: Option<int>, p: Product)
    requires Trim(search) != []
    requires p in Matching(products, search, selected, minPrice, maxPrice)
    ensures Contains(Haystack(p), ToLower(Trim(search)))
  {
    var r := Matching(products, search, selected, minPrice, maxPrice);
    var i :| 0 <= i < |r| && r[i] == p;
    assert Matches(r[i], search, selected, minPrice, maxPrice);
  }

  // ---------------------------------------------------------------------
  // Sorting

  /** The comparator handed to `sort`: negative when `a` goes first. Name
      comparison returns -1, 0 or 1 like `localeCompare`. */
  function Compare(a: Product, b: Product, key: SortKey): int
  {
    match key
    case PriceAsc => a.priceCents - b.priceCents
    case PriceDesc => b.priceCents - a.priceCents
    case Name => if Less(a.name, b.name) then -1 else if a.name == b.name then 0 else 1
    case Date => b.createdAt - a.createdAt
  }

  predicate Before(a: Product, b: Product, key: SortKey)
  {
    Compare(a, b, key) <= 0
  }

  predicate SortedBy(s: seq<Product>, key: SortKey)
  {
    forall i, j :: 0 <= i < j < |s| ==> Before(s[i], s[j], key)
  }

  /** What "sorted" means for each key. */
  lemma SortedByMeaning(s: seq<Product>, key: SortKey)
    requires SortedBy(s, key)
    ensures key == PriceAsc ==> forall i, j :: 0 <= i < j < |s| ==> s[i].priceCents <= s[j].priceCents
    ensures key == PriceDesc ==> forall i, j :: 0 <= i < j < |s| ==> s[i].priceCents >= s[j].priceCents
    ensures key == Date ==> forall i, j :: 0 <= i < j < |s| ==> s[i].createdAt >= s[j].createdAt
    ensures key == Name ==> forall i, j :: 0 <= i < j < |s| ==> !Less(s[j].name, s[i].name)
  {
    if key == Name {
      forall i, j | 0 <= i < j < |s| ensures !Less(s[j].name, s[i].name) {
        assert Before(s[i], s[j], key);
        LessAsymmetric(s[i].name, s[j].name);
        LessIrreflexive(s[i].name);
      }
    }
  }

  /** Every key orders products totally. */
  lemma BeforeTotal(a: Product, b: Product, key: SortKey)
    ensures Before(a, b, key) || Before(b, a, key)
  {
    if key == Name { LessTotal(a.name, b.name); }
  }

  lemma BeforeTransitive(a: Product, b: Product, c: Product, key: SortKey)
    requires Before(a, b, key) && Before(b, c, key)
    ensures Before(a, c, key)
  {
    if key == Name {
      LessTotal(a.name, b.name);
      LessTotal(b.name, c.name);
      LessAsymmetric(a.name, b.name);
      LessAsymmetric(b.name, c.name);
      NotLessTransitive(a.name, b.name, c.name);
      LessTotal(a.name, c.name);
    }
  }

  /** `filtered.sort(comparator)`: sorts the array in place by the key's
      comparator, leaving the same products. */
  method SortInPlace(a: array<Product>, key: SortKey)
    modifies a
    ensures SortedBy(a[..], key)
    ensures multiset(a[..]) == multiset(old(a[..]))
  {
    var i := 0;
    while i < a.Length
      invariant 0 <= i <= a.Length
      invariant forall p, q :: 0 <= p < q < i ==> Before(a[p], a[q], key)
      invariant multiset(a[..]) == multiset(old(a[..]))
    {
      InsertIntoSorted(a, i, key);
      i := i + 1;
    }
  }

  /** One insertion step: the sorted prefix `a[..i]` grows to `a[..i+1]`
      by moving `a[i]` left past every product that must follow it. */
  method InsertIntoSorted(a: array<Product>, i: nat, key: SortKey)
    requires i < a.Length
    requires forall p, q :: 0 <= p < q < i ==> Before(a[p], a[q], key)
    modifies a
    ensures forall p, q :: 0 <= p < q <= i ==> Before(a[p], a[q], key)
    ensures multiset(a[..]) == multiset(old(a[..]))
  {
    var j := i;
    while j > 0 && !Before(a[j - 1], a[j], key)
      invariant 0 <= j <= i
      invariant forall p, q :: 0 <= p < q <= i && p != j && q != j ==> Before(a[p], a[q], key)
      invariant forall q :: j < q <= i ==> Before(a[j], a[q], key)
      invariant multiset(a[..]) == multiset(old(a[..]))
    {
      BeforeTotal(a[j - 1], a[j], key);
      SwapDown(a, j);
      j := j - 1;
    }
    if j > 0 {
      forall p | 0 <= p < j ensures Before(a[p], a[j], key) {
        if p < j - 1 {
          BeforeTransitive(a[p], a[j - 1], a[j], key);
        }
      }
    }
  }

  /** Exchanges `a[j-1]` and `a[j]`. */
  method SwapDown(a: array<Product>, j: nat)
    requires 0 < j < a.Length
    modifies a
    ensures a[..] == old(a[..])[j - 1 := old(a[j])][j := old(a[j - 1])]
    ensures multiset(a[..]) == multiset(old(a[..]))
  {
    a[j - 1], a[j] := a[j], a[j - 1];
  }

  /** `filteredProducts`: the products passing every filter, reordered by
      the chosen key. */
  method FilteredProducts(products: seq<Product>, search: string, selected: seq<string>,
                          minPrice: Option<int>, maxPrice: Option<int>, sortBy: SortKey)
    returns (r: seq<Product>)
    ensures multiset(r) == multiset(Matching(products, search, selected, minPrice, maxPrice))
    ensures SortedBy(r, sortBy)
  {
    var filtered := Matching(products, search, selected, minPrice, maxPrice);
    r := SortedCopy(filtered, sortBy);
  }

  /** The filtered products copied into a fresh array and sorted there. */
  method SortedCopy(s: seq<Product>, key: SortKey) returns (r: seq<Product>)
    ensures multiset(r) == multiset(s)
    ensures SortedBy(r, key)
  {
    var a := new Product[|s|](i requires 0 <= i < |s| => s[i]);
    assert a[..] == s;
    SortInPlace(a, key);
    r := a[..];
  }

  /** Every shown product passes every filter, and every product that
      passes them all is shown. */
  lemma ShownIffMatches(products: seq<Product>, search: string, selected: seq<string>,
                        minPrice: Option<int>, maxPrice: Option<int>, shown: seq<Product>, p: Product)
    requires multiset(shown) == multiset(Matching(products, search, selected, minPrice, maxPrice))
    ensures p in shown <==> p in products && Matches(p, search, selected, minPrice, maxPrice)
  {
    var m := Matching(products, search, selected, minPrice, maxPrice);
    assert p in shown <==> p in multiset(shown);
    assert p in m <==> p in multiset(m);
    SubseqMembers(m, products);
  }

  // ---------------------------------------------------------------------
  // Tag selection

  /** Clicking a tag: drop it when selected, append it otherwise. */
  function ToggleTag(current: seq<string>, tag: string): (r: seq<string>)
    ensures tag in r <==> tag !in current
    ensures forall t :: t != tag ==> (t in r <==> t in current)
  {
    if tag in current then Filter(current, v => v != tag) else current + [tag]
  }

  /** Selecting a tag and clicking it again restores the selection. */
  lemma ToggleTagTwice(current: seq<string>, tag: string)
    requires tag !in current
    ensures ToggleTag(ToggleTag(current, tag), tag) == current
  {
    var once := current + [tag];
    assert tag in once;
    FilterAppend(current, [tag], v => v != tag);
    FilterKeepsAll(current, v => v != tag);
    FilterNoneKept([tag], v => v != tag);
  }

  /** The selection never lists a tag twice. */
  lemma ToggleTagKeepsDistinct(current: seq<string>, tag: string)
    requires NoDups(current)
    ensures NoDups(ToggleTag(current, tag))
  {
    if tag in current {
      FilterNoDups(current, v => v != tag);
    }
  }

  // ---------------------------------------------------------------------
  // The view's state

  class CatalogView {
    var products: seq<Product>
    var error: Option<string>
    var search: string
    var selectedTags: seq<string>
    var minPrice: Option<int>
    var maxPrice: Option<int>
    var sortBy: SortKey

    predicate FiltersCleared()
      reads this
    {
      search == "" && selectedTags == [] && minPrice == None && maxPrice == None && sortBy == Date
    }

    ghost predicate Valid()
      reads this
    {
      NoDups(selectedTags)
    }

    constructor()
      ensures Valid() && FiltersCleared()
      ensures products == [] && error == None
    {
      products := [];
      error := None;
      search := "";
      selectedTags := [];
      minPrice := None;
      maxPrice := None;
      sortBy := Date;
    }

    /** The catalogue fetch: the products on success; on failure the
        thrown message, or a fixed one when the thrown value is not an
        error object (`None`). The products shown before stay. */
    method Load(response: Result<seq<Product>, Option<string>>)
      modifies this
      ensures response.Success? ==> products == response.value && error == None
      ensures response.Failure? ==> products == old(products)
      ensures response.Failure? && response.error.Some? ==> error == response.error
      ensures response.Failure? && response.error.None? ==> error == Some("Failed to load products")
      ensures search == old(search) && selectedTags == old(selectedTags)
      ensures minPrice == old(minPrice) && maxPrice == old(maxPrice) && sortBy == old(sortBy)
    {
      error := None;
      match response
      case Success(data) =>
        products := data;
      case Failure(thrown) =>
        error := Some(ErrorMessage(thrown, "Failed to load products"));
    }

    method ToggleSelectedTag(tag: string)
      requires Valid()
      modifies this
      ensures Valid()
      ensures selectedTags == ToggleTag(old(selectedTags), tag)
      ensures products == old(products) && error == old(error) && search == old(search)
      ensures minPrice == old(minPrice) && maxPrice == old(maxPrice) && sortBy == old(sortBy)
    {
      ToggleTagKeepsDistinct(selectedTags, tag);
      selectedTags := ToggleTag(selectedTags, tag);
    }

    method ClearFilters()
      modifies this
      ensures Valid() && FiltersCleared()
      ensures products == old(products) && error == old(error)
    {
      search := "";
      selectedTags := [];
      minPrice := None;
      maxPrice := None;
      sortBy := Date;
    }

    /** What the grid shows for the current state. */
    method Shown() returns (r: seq<Product>)
      ensures multiset(r) == multiset(Matching(products, search, selectedTags, minPrice, maxPrice))
      ensures SortedBy(r, sortBy)
    {
      r := FilteredProducts(products, search, selectedTags, minPrice, maxPrice, sortBy);
    }
  }
}
