/**
 * The search query of the product store: five optional criteria become a
 * conjunctive filter and an optional sort on price, which the document store
 * then evaluates over the stored products in their natural (insertion) order.
 */
module SearchQuery {
  import opened Wrappers
  import opened Model
  import opened Text

  // ---------------------------------------------------------------------------
  // Case-insensitive substring match (the `$regex` with option `i`, for a
  // pattern without metacharacters, on ASCII letters)
  // ---------------------------------------------------------------------------

  predicate OccursAt(needle: string, hay: string, i: nat) {
    i + |needle| <= |hay| && hay[i..i + |needle|] == needle
  }

  predicate Contains(hay: string, needle: string) {
    exists i: nat | i <= |hay| :: OccursAt(needle, hay, i)
  }

  predicate ContainsFold(hay: string, needle: string) {
    Contains(Lower(hay), Lower(needle))
  }

  /** A name always contains itself, whatever the case: an exact match is also a fold match. */
  lemma ContainsFoldSelf(name: string)
    ensures ContainsFold(name, name)
  {
    var l := Lower(name);
    assert l[0..|l|] == l;
    assert OccursAt(l, l, 0);
  }

  // ---------------------------------------------------------------------------
  // The filter document and the sort option
  // ---------------------------------------------------------------------------

  /** `{"name": n}` or `{"name": {"$regex": n, "$options": "i"}}`. */
  datatype NameClause = NameEquals(name: string) | NameRegexFold(pattern: string)

  /** `{"$gte": lo, "$lte": hi}` with either key possibly absent. */
  datatype PriceRange = PriceRange(gte: Option<Price>, lte: Option<Price>)

  /** The filter document: each present clause must hold. */
  datatype Filter = Filter(name: Option<NameClause>, price: Option<PriceRange>)

  datatype Direction = Unsorted | Ascending | Descending

  predicate NameMatches(name: string, c: NameClause) {
    match c
    case NameEquals(n) => name == n
    case NameRegexFold(pattern) => ContainsFold(name, pattern)
  }

  predicate InRange(x: Price, r: PriceRange) {
    (r.gte.None? || x >= r.gte.value) && (r.lte.None? || x <= r.lte.value)
  }

  /** How the store evaluates a filter on one document. */
  predicate Matches(p: Product, f: Filter) {
    && (f.name.None? || NameMatches(p.name, f.name.value))
    && (f.price.None? || InRange(p.price, f.price.value))
  }

  /**
   * What the five search criteria promise of a product, read directly: an
   * empty name and a non-positive bound each constrain nothing, bounds are
   * inclusive and independent.
   */
  predicate Satisfies(p: Product, name: string, exactMatch: bool, minPrice: Price, maxPrice: Price) {
    && (name != "" && exactMatch ==> p.name == name)
    && (name != "" && !exactMatch ==> ContainsFold(p.name, name))
    && (minPrice > 0.0 ==> p.price >= minPrice)
    && (maxPrice > 0.0 ==> p.price <= maxPrice)
  }

  /** A product named "Blue WIDGET 2" is found by the name "Widget" only without exact match. */
  lemma WidgetExample(p: Product)
    requires p.name == "Blue WIDGET 2"
    ensures Satisfies(p, "Widget", false, 0.0, 0.0)
    ensures !Satisfies(p, "Widget", true, 0.0, 0.0)
  {
    var hay, needle := Lower("Blue WIDGET 2"), Lower("Widget");
    assert needle == "widget";
    assert hay[5..11] == "widget";
    assert OccursAt(needle, hay, 5);
  }

  /** Builds the filter document clause by clause, as the store adapter does. */
  method BuildFilter(name: string, exactMatch: bool, minPrice: Price, maxPrice: Price) returns (filter: Filter)
    ensures filter.name.Some? <==> name != ""
    ensures filter.price.Some? <==> minPrice > 0.0 || maxPrice > 0.0
    ensures filter.price.Some? ==>
              (filter.price.value.gte.Some? <==> minPrice > 0.0) && (filter.price.value.lte.Some? <==> maxPrice > 0.0)
    ensures forall p :: Matches(p, filter) <==> Satisfies(p, name, exactMatch, minPrice, maxPrice)
  {
    filter := Filter(None, None);

    if name != "" {
      if exactMatch {
        filter := filter.(name := Some(NameEquals(name)));
      } else {
        filter := filter.(name := Some(NameRegexFold(name)));
      }
    }

    if minPrice > 0.0 || maxPrice > 0.0 {
      var priceFilter := PriceRange(None, None);
      if minPrice > 0.0 {
        priceFilter := priceFilter.(gte := Some(minPrice));
      }
      if maxPrice > 0.0 {
        priceFilter := priceFilter.(lte := Some(maxPrice));
      }
      filter := filter.(price := Some(priceFilter));
    }
  }

  /** The sort option: none for "", descending only for exactly "desc", ascending otherwise. */
  method SortOption(sortByPrice: string) returns (direction: Direction)
    ensures direction == Unsorted <==> sortByPrice == ""
    ensures direction == Descending <==> sortByPrice == "desc"
    ensures direction == Ascending <==> sortByPrice != "" && sortByPrice != "desc"
  {
    direction := Unsorted;
    if sortByPrice != "" {
      direction := Ascending;
      if sortByPrice == "desc" {
        direction := Descending;
      }
    }
  }

  // ---------------------------------------------------------------------------
  // Evaluating the query over the stored products
  // ---------------------------------------------------------------------------

  /** `s` is `t` with some elements dropped, the rest kept in order. */
  predicate IsSubsequence<T(==)>(s: seq<T>, t: seq<T>)
    decreases |t|
  {
    s == [] || (t != [] && ((s[0] == t[0] && IsSubsequence(s[1..], t[1..])) || IsSubsequence(s, t[1..])))
  }

  /** The documents of `s` that match `f`, in the order of `s`. */
  function Select(s: seq<Product>, f: Filter): (r: seq<Product>)
    ensures forall p :: multiset(r)[p] == if Matches(p, f) then multiset(s)[p] else 0
    ensures IsSubsequence(r, s)
  {
    if s == [] then []
    else
      var rest := Select(s[1..], f);
      assert s == [s[0]] + s[1..];
      if Matches(s[0], f) then [s[0]] + rest else rest
  }

  predicate Precedes(a: Product, b: Product, d: Direction) {
    if d == Descending then a.price >= b.price else a.price <= b.price
  }

  predicate SortedBy(s: seq<Product>, d: Direction) {
    forall i, j :: 0 <= i < j < |s| ==> Precedes(s[i], s[j], d)
  }

  /** A sorted sequence stays sorted under a head that precedes all of it. */
  lemma PrependSorted(h: Product, t: seq<Product>, d: Direction)
    requires SortedBy(t, d)
    requires forall y :: y in t ==> Precedes(h, y, d)
    ensures SortedBy([h] + t, d)
  {
  }

  /** The head of a sorted sequence precedes everything after it. */
  lemma HeadPrecedesTail(s: seq<Product>, d: Direction)
    requires s != [] && SortedBy(s, d)
    ensures forall y :: y in s[1..] ==> Precedes(s[0], y, d)
  {
  }

  /** Inserts `x` before the first element it precedes, so that earlier equals stay first. */
  function Insert(x: Product, s: seq<Product>, d: Direction): (r: seq<Product>)
    requires SortedBy(s, d)
    ensures multiset(r) == multiset(s) + multiset{x}
    ensures SortedBy(r, d)
  {
    if s == [] then [x]
    else if Precedes(x, s[0], d) then
      HeadPrecedesTail(s, d);
      assert s == [s[0]] + s[1..];
      PrependSorted(x, s, d);
      [x] + s
    else
      assert s == [s[0]] + s[1..];
      assert SortedBy(s[1..], d);
      var rest := Insert(x, s[1..], d);
      HeadPrecedesTail(s, d);
      assert forall y :: y in rest ==> Precedes(s[0], y, d) by {
        forall y | y in rest ensures Precedes(s[0], y, d) {
          assert y in multiset(rest);
        }
      }
      PrependSorted(s[0], rest, d);
      [s[0]] + rest
  }

  /** The store's sort on price; without a sort the natural order is kept. */
  function SortByPrice(s: seq<Product>, d: Direction): (r: seq<Product>)
    ensures multiset(r) == multiset(s)
    ensures if d == Unsorted then r == s else SortedBy(r, d)
  {
    if d == Unsorted || s == [] then s
    else
      assert s == [s[0]] + s[1..];
      Insert(s[0], SortByPrice(s[1..], d), d)
  }

  // ---------------------------------------------------------------------------
  // What a search answer is
  // ---------------------------------------------------------------------------

  /**
   * `result` answers the search over `store`: it holds exactly the stored
   * products that satisfy the criteria, each as often as it is stored; it
   * keeps the store's order when no sort is asked for, and is ordered by
   * price otherwise (descending only for "desc"). Among equal prices the
   * store promises no order.
   */
  ghost predicate IsSearchAnswer(
    store: seq<Product>, name: string, exactMatch: bool, minPrice: Price, maxPrice: Price,
    sortByPrice: string, result: seq<Product>)
  {
    && (forall p :: multiset(result)[p] == if Satisfies(p, name, exactMatch, minPrice, maxPrice) then multiset(store)[p] else 0)
    && (sortByPrice == "" ==> IsSubsequence(result, store))
    && (sortByPrice == "desc" ==> forall i, j :: 0 <= i < j < |result| ==> result[i].price >= result[j].price)
    && (sortByPrice != "" && sortByPrice != "desc" ==>
          forall i, j :: 0 <= i < j < |result| ==> result[i].price <= result[j].price)
  }

  /** Running the filter and then the sort answers the search. */
  lemma SelectThenSortAnswers(
    store: seq<Product>, name: string, exactMatch: bool, minPrice: Price, maxPrice: Price,
    sortByPrice: string, f: Filter, d: Direction)
    requires forall p :: Matches(p, f) <==> Satisfies(p, name, exactMatch, minPrice, maxPrice)
    requires d == Unsorted <==> sortByPrice == ""
    requires d == Descending <==> sortByPrice == "desc"
    ensures IsSearchAnswer(store, name, exactMatch, minPrice, maxPrice, sortByPrice, SortByPrice(Select(store, f), d))
  {
  }

  /** Every product in an answer is stored and satisfies the criteria. */
  lemma AnswerMembersSatisfy(
    store: seq<Product>, name: string, exactMatch: bool, minPrice: Price, maxPrice: Price,
    sortByPrice: string, result: seq<Product>)
    requires IsSearchAnswer(store, name, exactMatch, minPrice, maxPrice, sortByPrice, result)
    ensures forall p :: p in result ==> p in store && Satisfies(p, name, exactMatch, minPrice, maxPrice)
  {
    forall p | p in result
      ensures p in store && Satisfies(p, name, exactMatch, minPrice, maxPrice)
    {
      assert multiset(result)[p] > 0;
    }
  }

  /** A subsequence is no longer than its sequence, and one of equal length is the sequence itself. */
  lemma {:induction false} SubsequenceLength<T>(s: seq<T>, t: seq<T>)
    requires IsSubsequence(s, t)
    ensures |s| <= |t|
    ensures |s| == |t| ==> s == t
    decreases |t|
  {
    if s == [] {
    } else if s[0] == t[0] && IsSubsequence(s[1..], t[1..]) {
      SubsequenceLength(s[1..], t[1..]);
      if |s| == |t| {
        assert s == [s[0]] + s[1..] && t == [t[0]] + t[1..];
      }
    } else {
      SubsequenceLength(s, t[1..]);
    }
  }

  /**
   * With no name, no positive bound and no sort, the one answer is the whole
   * store in its natural order.
   */
  lemma NoCriteriaAnswerIsStore(store: seq<Product>, exactMatch: bool, minPrice: Price, maxPrice: Price, result: seq<Product>)
    requires minPrice <= 0.0 && maxPrice <= 0.0
    requires IsSearchAnswer(store, "", exactMatch, minPrice, maxPrice, "", result)
    ensures result == store
  {
    assert forall p :: multiset(result)[p] == multiset(store)[p];
    assert multiset(result) == multiset(store);
    assert |result| == |multiset(result)|;
    SubsequenceLength(result, store);
  }

  /** With no criteria but a sort, the answer is a reordering of the whole store. */
  lemma NoFilterAnswerIsPermutation(
    store: seq<Product>, exactMatch: bool, minPrice: Price, maxPrice: Price, sortByPrice: string, result: seq<Product>)
    requires minPrice <= 0.0 && maxPrice <= 0.0
    requires IsSearchAnswer(store, "", exactMatch, minPrice, maxPrice, sortByPrice, result)
    ensures multiset(result) == multiset(store)
  {
  }
}
