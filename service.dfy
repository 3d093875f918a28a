/**
 * The product service: builds new products from create requests, applies the
 * partial-update merge, forwards search criteria, and maps stored products to
 * responses. It holds no state of its own besides the store adapter.
 */
module Service {
  import opened Wrappers
  import opened ObjectIds
  import opened Model
  import opened SearchQuery
  import opened Repository

  /** The response view of a product; its id string parses back to the product's id. */
  function MapProductToResponse(p: Product): (r: ProductResponse)
    ensures r.id == Hex(p.id)
    ensures ObjectIdFromHex(r.id) == Some(p.id)
    ensures r.name == p.name && r.description == p.description && r.price == p.price
    ensures r.createdAt == p.createdAt && r.updatedAt == p.updatedAt
  {
    HexRoundTrip(p.id);
    ProductResponse(Hex(p.id), p.name, p.description, p.price, p.createdAt, p.updatedAt)
  }

  /** One response per product, in the same order. */
  method MapProductsToResponses(products: seq<Product>) returns (responses: seq<ProductResponse>)
    ensures |responses| == |products|
    ensures forall i :: 0 <= i < |products| ==> responses[i] == MapProductToResponse(products[i])
  {
    responses := [];
    for i := 0 to |products|
      invariant |responses| == i
      invariant forall k :: 0 <= k < i ==> responses[k] == MapProductToResponse(products[k])
    {
      responses := responses + [MapProductToResponse(products[i])];
    }
  }

  /** Whether an update request supplies each field: an empty string or a price <= 0 does not. */
  predicate SuppliesName(req: UpdateProductRequest) { req.name != "" }
  predicate SuppliesDescription(req: UpdateProductRequest) { req.description != "" }
  predicate SuppliesPrice(req: UpdateProductRequest) { req.price > 0.0 }

  /** The partial-update merge: each supplied field replaces the stored one; id and timestamps are kept. */
  function Merge(existing: Product, req: UpdateProductRequest): (m: Product)
    ensures m.id == existing.id && m.createdAt == existing.createdAt && m.updatedAt == existing.updatedAt
    ensures m.name == if SuppliesName(req) then req.name else existing.name
    ensures m.description == if SuppliesDescription(req) then req.description else existing.description
    ensures m.price == if SuppliesPrice(req) then req.price else existing.price
  {
    existing.(
      name := if SuppliesName(req) then req.name else existing.name,
      description := if SuppliesDescription(req) then req.description else existing.description,
      price := if SuppliesPrice(req) then req.price else existing.price)
  }

  /** A request that supplies nothing leaves the product as it is. */
  lemma MergeNothingSupplied(p: Product, req: UpdateProductRequest)
    requires req.name == "" && req.description == "" && req.price <= 0.0
    ensures Merge(p, req) == p
  {
  }

  /** A request that supplies only a price changes only the price. */
  lemma MergeOnlyPrice(p: Product, req: UpdateProductRequest)
    requires req.name == "" && req.description == "" && req.price > 0.0
    ensures Merge(p, req) == p.(price := req.price)
  {
  }

  /** Applying the same request twice is the same as applying it once. */
  lemma MergeIdempotent(p: Product, req: UpdateProductRequest)
    ensures Merge(Merge(p, req), req) == Merge(p, req)
  {
  }

  /** The later request's supplied fields win; otherwise the earlier one's. */
  function Combine(first: UpdateProductRequest, second: UpdateProductRequest): (c: UpdateProductRequest) {
    UpdateProductRequest(
      if SuppliesName(second) then second.name else first.name,
      if SuppliesDescription(second) then second.description else first.description,
      if SuppliesPrice(second) then second.price else first.price)
  }

  /** Two successive merges amount to one merge of the combined request. */
  lemma MergeComposes(p: Product, first: UpdateProductRequest, second: UpdateProductRequest)
    ensures Merge(Merge(p, first), second) == Merge(p, Combine(first, second))
  {
  }

  class ProductService {
    const repo: ProductRepository

    constructor (repo: ProductRepository)
      ensures this.repo == repo
    {
      this.repo := repo;
    }

    /**
     * Copies the request into a new product without checking it, and stores
     * it; the store assigns the id and both timestamps.
     */
    method CreateProduct(req: CreateProductRequest, generated: ObjectId, fault: bool)
      returns (r: Result<ProductResponse, StoreError>)
      requires repo.Valid()
      modifies repo, repo.clock
      ensures repo.Valid()
      ensures r.Ok? <==> !fault && generated !in old(repo.docs)
      ensures r.Err? ==>
                && r.error == (if fault then Unavailable else DuplicateKey)
                && repo.docs == old(repo.docs) && repo.order == old(repo.order)
      ensures r.Ok? ==>
                var stored := Product(generated, req.name, req.description, req.price, r.value.createdAt, r.value.updatedAt);
                && r.value == MapProductToResponse(stored)
                && old(repo.clock.reading) <= stored.createdAt <= stored.updatedAt == repo.clock.reading
                && repo.docs == old(repo.docs)[generated := stored]
                && repo.Contents() == old(repo.Contents()) + [stored]
    {
      var product := Product(Nil, req.name, req.description, req.price, 0, 0);
      var saved, err := repo.Create(product, generated, fault);
      if err.Some? {
        return Err(err.value);
      }
      r := Ok(MapProductToResponse(saved));
    }

    method GetProduct(id: string, fault: bool) returns (r: Result<ProductResponse, StoreError>)
      requires repo.Valid()
      ensures ObjectIdFromHex(id).None? ==> r == Err(InvalidId)
      ensures ObjectIdFromHex(id).Some? ==>
                var key := ObjectIdFromHex(id).value;
                r == if fault then Err(Unavailable)
                     else if key in repo.docs then Ok(MapProductToResponse(repo.docs[key]))
                     else Err(NoDocuments)
    {
      var found := repo.FindByID(id, fault);
      if found.Err? {
        return Err(found.error);
      }
      r := Ok(MapProductToResponse(found.value));
    }

    method GetAllProducts(fault: bool) returns (r: Result<seq<ProductResponse>, StoreError>)
      requires repo.Valid()
      ensures r.Err? <==> fault
      ensures r.Err? ==> r.error == Unavailable
      ensures r.Ok? ==>
                && |r.value| == |repo.order|
                && forall i :: 0 <= i < |repo.order| ==> r.value[i] == MapProductToResponse(repo.docs[repo.order[i]])
    {
      var products := repo.FindAll(fault);
      if products.Err? {
        return Err(products.error);
      }
      var responses := MapProductsToResponses(products.value);
      r := Ok(responses);
    }

    /**
     * Reads the stored product, merges the request into it, and writes it
     * back with a fresh `updatedAt`; a failed read leaves the store alone.
     */
    method UpdateProduct(id: string, req: UpdateProductRequest, readFault: bool, writeFault: bool)
      returns (r: Result<ProductResponse, StoreError>)
      requires repo.Valid()
      modifies repo, repo.clock
      ensures repo.Valid()
      ensures repo.order == old(repo.order)
      ensures ObjectIdFromHex(id).None? ==>
                r == Err(InvalidId) && repo.docs == old(repo.docs) && repo.clock.reading == old(repo.clock.reading)
      ensures ObjectIdFromHex(id).Some? && (readFault || ObjectIdFromHex(id).value !in old(repo.docs)) ==>
                && r == Err(if readFault then Unavailable else NoDocuments)
                && repo.docs == old(repo.docs) && repo.clock.reading == old(repo.clock.reading)
      ensures ObjectIdFromHex(id).Some? && !readFault && ObjectIdFromHex(id).value in old(repo.docs) ==>
                var key := ObjectIdFromHex(id).value;
                var stored := old(repo.docs)[key];
                var updated := Merge(stored, req).(updatedAt := repo.clock.reading);
                && stored.updatedAt <= updated.updatedAt
                && (writeFault ==> r == Err(Unavailable) && repo.docs == old(repo.docs))
                && (!writeFault ==> r == Ok(MapProductToResponse(updated)) && repo.docs == old(repo.docs)[key := updated])
    {
      var found := repo.FindByID(id, readFault);
      if found.Err? {
        return Err(found.error);
      }
      var existing := found.value;

      if req.name != "" {
        existing := existing.(name := req.name);
      }
      if req.description != "" {
        existing := existing.(description := req.description);
      }
      if req.price > 0.0 {
        existing := existing.(price := req.price);
      }

      var saved, err := repo.Update(id, existing, writeFault);
      if err.Some? {
        return Err(err.value);
      }
      r := Ok(MapProductToResponse(saved));
    }

    method DeleteProduct(id: string, fault: bool) returns (err: Option<StoreError>)
      requires repo.Valid()
      modifies repo
      ensures repo.Valid()
      ensures err == if ObjectIdFromHex(id).None? then Some(InvalidId) else if fault then Some(Unavailable) else None
      ensures err.None? ==>
                var key := ObjectIdFromHex(id).value;
                repo.docs == old(repo.docs) - {key} && repo.order == Without(old(repo.order), key)
      ensures err.Some? ==> repo.docs == old(repo.docs) && repo.order == old(repo.order)
    {
      err := repo.Delete(id, fault);
    }

    /** Forwards the five criteria unchanged and maps each found product, in order. */
    method SearchProducts(req: SearchProductRequest, fault: bool)
      returns (r: Result<seq<ProductResponse>, StoreError>, ghost found: seq<Product>)
      requires repo.Valid()
      ensures r.Err? <==> fault
      ensures r.Err? ==> r.error == Unavailable
      ensures r.Ok? ==>
                && IsSearchAnswer(repo.Contents(), req.name, req.exactMatch, req.minPrice, req.maxPrice, req.sortByPrice, found)
                && |r.value| == |found|
                && forall i :: 0 <= i < |found| ==> r.value[i] == MapProductToResponse(found[i])
    {
      var products := repo.Search(req.name, req.exactMatch, req.minPrice, req.maxPrice, req.sortByPrice, fault);
      if products.Err? {
        return Err(products.error), [];
      }
      found := products.value;
      var responses := MapProductsToResponses(products.value);
      r := Ok(responses);
    }
  }

  /**
   * A product's life through the service: create, read back, patch the price,
   * delete, read again, delete again.
   */
  method PenLifecycle(generated: ObjectId)
  {
    var clock := new Clock(0);
    var repo := new ProductRepository(clock, map[], []);
    var service := new ProductService(repo);

    var created := service.CreateProduct(CreateProductRequest("Pen", "", 1.5), generated, false);
    assert created.Ok?;
    var id := created.value.id;
    assert ObjectIdFromHex(id) == Some(generated);

    var got := service.GetProduct(id, false);
    assert got == created;

    var patched := service.UpdateProduct(id, UpdateProductRequest("", "", 2.0), false, false);
    assert patched.Ok? && patched.value.price == 2.0 && patched.value.name == "Pen" && patched.value.id == id;
    assert patched.value.createdAt == created.value.createdAt <= patched.value.updatedAt;

    var deleted := service.DeleteProduct(id, false);
    assert deleted == None;

    var gone := service.GetProduct(id, false);
    assert gone == Err(NoDocuments);

    var again := service.DeleteProduct(id, false);
    assert again == None;
  }
}
