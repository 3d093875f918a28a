/**
 * The product store adapter over an in-memory model of the document
 * collection: a map from object id to stored document, plus the ids in
 * insertion order (the collection's natural order).
 */
module Repository {
  import opened Wrappers
  import opened ObjectIds
  import opened Model
  import opened SearchQuery
  import opened Text

  /** The wall clock: a reading never precedes the one before it. */
  class Clock {
    var reading: Time

    constructor (start: Time)
      ensures reading == start
    {
      reading := start;
    }

    method Now() returns (t: Time)
      modifies this
      ensures old(reading) <= t && reading == t
    {
      reading := reading + 1;
      t := reading;
    }
  }

  predicate Distinct(s: seq<ObjectId>) {
    forall i, j :: 0 <= i < j < |s| ==> s[i] != s[j]
  }

  /** `s` without `k`, order kept. */
  function Without(s: seq<ObjectId>, k: ObjectId): (r: seq<ObjectId>)
    ensures forall x :: x in r <==> x in s && x != k
    ensures Distinct(s) ==> Distinct(r)
  {
    if s == [] then []
    else
      var rest := Without(s[1..], k);
      assert Distinct(s) ==> Distinct(s[1..]) && s[0] !in s[1..];
      if s[0] == k then rest else [s[0]] + rest
  }

  /** The documents listed by `order`, in that order. */
  function InOrder(order: seq<ObjectId>, docs: map<ObjectId, Product>): (s: seq<Product>)
    requires forall k :: k in order ==> k in docs
    ensures |s| == |order|
    ensures forall i :: 0 <= i < |order| ==> s[i] == docs[order[i]]
  {
    if order == [] then [] else [docs[order[0]]] + InOrder(order[1..], docs)
  }

  class ProductRepository {
    var docs: map<ObjectId, Product>
    var order: seq<ObjectId>
    const clock: Clock

    /** Each stored id is listed once in the natural order, and each document carries its own id. */
    ghost predicate WellFormed()
      reads this
    {
      && Distinct(order)
      && (forall k :: k in docs <==> k in order)
      && (forall k :: k in docs ==> docs[k].id == k)
    }

    /** Besides, every stored `updatedAt` is a reading the clock has already given. */
    ghost predicate Valid()
      reads this, clock
    {
      WellFormed() && forall k :: k in docs ==> docs[k].updatedAt <= clock.reading
    }

    /** The stored documents in natural order. */
    function Contents(): (s: seq<Product>)
      reads this
      requires WellFormed()
    {
      InOrder(order, docs)
    }

    /**
     * Binds the collection as it stands: `docs0` and `order0` are the
     * documents already stored and their natural order.
     */
    constructor (clock: Clock, docs0: map<ObjectId, Product>, order0: seq<ObjectId>)
      requires Distinct(order0)
      requires forall k :: k in docs0 <==> k in order0
      requires forall k :: k in docs0 ==> docs0[k].id == k && docs0[k].updatedAt <= clock.reading
      ensures Valid()
      ensures this.clock == clock && docs == docs0 && order == order0
    {
      this.clock := clock;
      docs := docs0;
      order := order0;
    }

    /**
     * Stamps both timestamps from two successive clock readings and inserts
     * the product; the driver keeps a non-nil id and otherwise assigns
     * `generated`. The id is written back only when the insert succeeds.
     */
    method Create(product: Product, generated: ObjectId, fault: bool) returns (saved: Product, err: Option<StoreError>)
      requires Valid()
      modifies this, clock
      ensures Valid()
      ensures saved.name == product.name && saved.description == product.description && saved.price == product.price
      ensures old(clock.reading) <= saved.createdAt <= saved.updatedAt == clock.reading
      ensures var key := if product.id == Nil then generated else product.id;
              err == if fault then Some(Unavailable) else if key in old(docs) then Some(DuplicateKey) else None
      ensures err.None? ==>
                && saved.id == (if product.id == Nil then generated else product.id)
                && saved.id !in old(docs)
                && docs == old(docs)[saved.id := saved]
                && order == old(order) + [saved.id]
                && Contents() == old(Contents()) + [saved]
      ensures err.Some? ==> saved.id == product.id && docs == old(docs) && order == old(order)
    {
      var createdAt := clock.Now();
      var updatedAt := clock.Now();
      saved := product.(createdAt := createdAt, updatedAt := updatedAt);

      var key := if product.id == Nil then generated else product.id;
      if fault {
        err := Some(Unavailable);
        return;
      }
      if key in docs {
        err := Some(DuplicateKey);
        return;
      }
      saved := saved.(id := key);
      docs := docs[key := saved];
      order := order + [key];
      err := None;
      assert Contents() == old(Contents()) + [saved];
    }

    /** Looks a document up by the external form of its id. */
    method FindByID(id: string, fault: bool) returns (r: Result<Product, StoreError>)
      requires Valid()
      ensures ObjectIdFromHex(id).None? ==> r == Err(InvalidId)
      ensures ObjectIdFromHex(id).Some? && fault ==> r == Err(Unavailable)
      ensures ObjectIdFromHex(id).Some? && !fault ==>
                var key := ObjectIdFromHex(id).value;
                r == if key in docs then Ok(docs[key]) else Err(NoDocuments)
      ensures r.Ok? ==> r.value in Contents() && Hex(r.value.id) == Lower(id)
    {
      var parsed := ObjectIdFromHex(id);
      if parsed.None? {
        return Err(InvalidId);
      }
      var key := parsed.value;
      if fault {
        return Err(Unavailable);
      }
      if key !in docs {
        return Err(NoDocuments);
      }
      r := Ok(docs[key]);
      assert key in order;
      FromHexRoundTrip(id);
      assert Hex(key) == Lower(id);
    }

    /** Every stored document, in natural order. */
    method FindAll(fault: bool) returns (r: Result<seq<Product>, StoreError>)
      requires Valid()
      ensures r.Err? <==> fault
      ensures r.Err? ==> r.error == Unavailable
      ensures r.Ok? ==> |r.value| == |order| && forall i :: 0 <= i < |order| ==> r.value[i] == docs[order[i]]
    {
      if fault {
        return Err(Unavailable);
      }
      r := Ok(Contents());
    }

    /**
     * Stamps `updatedAt` and overwrites every field of the matching document
     * with `product`. A well-formed id that matches nothing is no error and
     * changes nothing; a non-nil `product.id` other than the key cannot
     * replace a stored document's id.
     */
    method Update(id: string, product: Product, fault: bool) returns (saved: Product, err: Option<StoreError>)
      requires Valid()
      modifies this, clock
      ensures Valid()
      ensures order == old(order)
      ensures ObjectIdFromHex(id).None? ==>
                err == Some(InvalidId) && saved == product && docs == old(docs) && clock.reading == old(clock.reading)
      ensures ObjectIdFromHex(id).Some? ==>
                var key := ObjectIdFromHex(id).value;
                && saved == product.(updatedAt := clock.reading)
                && old(clock.reading) <= clock.reading
                && err == (if fault then Some(Unavailable)
                           else if key in old(docs) && product.id != Nil && product.id != key then Some(ImmutableId)
                           else None)
                && docs == (if err.None? && key in old(docs) then old(docs)[key := saved.(id := key)] else old(docs))
    {
      var parsed := ObjectIdFromHex(id);
      if parsed.None? {
        return product, Some(InvalidId);
      }
      var key := parsed.value;

      var now := clock.Now();
      saved := product.(updatedAt := now);

      if fault {
        return saved, Some(Unavailable);
      }
      if key in docs {
        if product.id != Nil && product.id != key {
          return saved, Some(ImmutableId);
        }
        docs := docs[key := saved.(id := key)];
      }
      err := None;
    }

    /** Removes the matching document; a well-formed id that matches nothing is no error. */
    method Delete(id: string, fault: bool) returns (err: Option<StoreError>)
      requires Valid()
      modifies this
      ensures Valid()
      ensures err == if ObjectIdFromHex(id).None? then Some(InvalidId) else if fault then Some(Unavailable) else None
      ensures err.None? ==>
                var key := ObjectIdFromHex(id).value;
                docs == old(docs) - {key} && order == Without(old(order), key)
      ensures err.Some? ==> docs == old(docs) && order == old(order)
    {
      var parsed := ObjectIdFromHex(id);
      if parsed.None? {
        return Some(InvalidId);
      }
      var key := parsed.value;
      if fault {
        return Some(Unavailable);
      }
      docs := docs - {key};
      order := Without(order, key);
      err := None;
    }

    /**
     * Builds the filter and the sort option from the five criteria and runs
     * the query over the stored documents.
     */
    method Search(name: string, exactMatch: bool, minPrice: Price, maxPrice: Price, sortByPrice: string, fault: bool)
      returns (r: Result<seq<Product>, StoreError>)
      requires Valid()
      ensures r.Err? <==> fault
      ensures r.Err? ==> r.error == Unavailable
      ensures r.Ok? ==> IsSearchAnswer(Contents(), name, exactMatch, minPrice, maxPrice, sortByPrice, r.value)
    {
      var filter := BuildFilter(name, exactMatch, minPrice, maxPrice);
      var direction := SortOption(sortByPrice);

      if fault {
        return Err(Unavailable);
      }
      var products := SortByPrice(Select(Contents(), filter), direction);
      SelectThenSortAnswers(Contents(), name, exactMatch, minPrice, maxPrice, sortByPrice, filter, direction);
      r := Ok(products);
    }
  }
}
