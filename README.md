# Product API store adapter and service, modelled in Dafny

This project models the core of a small product CRUD service backed by a
MongoDB collection. The core has two parts.

- **The product store adapter** (`MongoProductRepository`). It creates,
  finds, lists, updates and deletes product documents. It also turns five
  optional search criteria into a filter document and an optional sort on
  price.
- **The product service** (`productService`). It builds new products from
  create requests and applies the partial-update merge. It forwards search
  criteria unchanged and maps stored products to responses.

The collection is modelled as a table: a `map<ObjectId, Product>` plus the
stored ids in insertion order, which stands for the collection's natural
order. Things the model cannot see become parameters:

- the wall clock is a `Clock` object whose readings never go backwards;
- the id the driver would generate is a `generated` argument;
- a failing driver call (lost connection, timeout, cancelled context) is a
  `fault` flag.

Files and modules:

- `wrappers.dfy` (`Wrappers`): `Option` and `Result`.
- `text.dfy` (`Text`): ASCII lower-casing, shared by id parsing and name
  matching.
- `object_id.dfy` (`ObjectIds`): the 12-byte object id as 24 hex digits. It
  renders in lower case, and parsing accepts exactly 24 hex characters of
  either case.
- `model.dfy` (`Model`): the product document, the request and response
  shapes, and the store's errors.
- `query.dfy` (`SearchQuery`): the filter document, how the store evaluates
  it, and the sort. `Satisfies` is a reference reading of the criteria, and
  `IsSearchAnswer` says what a search must return.
- `repository.dfy` (`Repository`): the `Clock` and the `ProductRepository`
  class.
- `service.dfy` (`Service`): the response mapping, the merge, and the
  `ProductService` class. It also has `PenLifecycle`, a client that runs one
  product through create, read, patch, delete and read again.

Behaviour of the code worth knowing:

- `CreateProduct` does not reject an empty name or a price <= 0.
- Deleting a well-formed id that matches nothing is not an error, because
  the deleted count is ignored. `PenLifecycle` deletes twice, and both calls
  succeed.
- Any non-empty sort string other than `"desc"` sorts ascending, including
  strings such as `"foo"`. The `oneof` validation tag is never enforced.
- `Create` reads the clock twice, so `createdAt <= updatedAt`, not equal.
- `Update` of a well-formed id that matches nothing returns no error and
  changes nothing.

## Model

| member | source | states |
|---|---|---|
| `ObjectIds.ObjectIdFromHex` | internal/repository/product_repository.go:48-51 | an id string is accepted exactly when it is 24 hex characters |
| `ObjectIds.HexRoundTrip` | internal/service/product_service.go:110 | parsing the external form of an id gives back that id |
| `ObjectIds.FromHexRoundTrip` | internal/repository/product_repository.go:48 | an accepted string renders back as itself with its letters lower-cased |
| `ObjectIds.FromHexInjective` | internal/repository/product_repository.go:48 | two accepted strings name the same id exactly when they agree up to letter case |
| `SearchQuery.BuildFilter` | internal/repository/product_repository.go:103-122 | there is a name clause iff the name is non-empty, and a price clause iff a bound is > 0; each bound is present iff it is > 0; a product matches the built filter iff it satisfies the criteria (exact and case-sensitive, or case-insensitive substring; inclusive independent bounds) |
| `SearchQuery.SortOption` | internal/repository/product_repository.go:124-131 | no sort iff the string is empty; descending iff it is exactly "desc"; ascending for every other non-empty string |
| `SearchQuery.Select` | internal/repository/product_repository.go:133 | the store returns each matching document as often as it is stored and no other, in natural order |
| `SearchQuery.Insert` | internal/repository/product_repository.go:130 | inserting into a price-sorted sequence keeps it sorted and adds exactly that product |
| `SearchQuery.SortByPrice` | internal/repository/product_repository.go:130-133 | the sorted result is a permutation of its input, ordered by price in the asked direction; without a sort the input order is kept |
| `SearchQuery.SelectThenSortAnswers` | internal/repository/product_repository.go:102-144 | filtering the stored products with a filter that means the criteria, then sorting, gives a search answer |
| `SearchQuery.AnswerMembersSatisfy` | internal/repository/product_repository.go:105-122 | every product in a search answer is stored and satisfies the criteria |
| `SearchQuery.NoCriteriaAnswerIsStore` | internal/repository/product_repository.go:103-133 | with an empty name, both bounds <= 0 and no sort, the answer is every stored product in natural order |
| `SearchQuery.NoFilterAnswerIsPermutation` | internal/repository/product_repository.go:103-131 | with an empty name and both bounds <= 0, any sorted answer is a permutation of the whole store |
| `SearchQuery.ContainsFoldSelf` | internal/repository/product_repository.go:106-110 | every exact name match is also a case-insensitive match |
| `SearchQuery.WidgetExample` | internal/repository/product_repository.go:106-110 | "Widget" finds "Blue WIDGET 2" case-insensitively but not by exact match |
| `Repository.Clock.Now` | internal/repository/product_repository.go:35-36 | a clock reading is never earlier than the previous one |
| `Repository.ProductRepository.constructor` | internal/repository/product_repository.go:28-32 | the adapter binds the collection as it stands: any well-formed set of already stored documents, in their natural order |
| `Repository.ProductRepository.Create` | internal/repository/product_repository.go:34-45 | both timestamps come from successive clock readings, with createdAt <= updatedAt; a non-nil id is kept, otherwise the generated id is used; a duplicate id, or a driver failure taken as having no effect, leaves the table and the product's id unchanged; on success the table gains exactly that document, appended to natural order |
| `Repository.ProductRepository.FindByID` | internal/repository/product_repository.go:47-60 | a malformed id fails with InvalidId; a well-formed absent id fails with NoDocuments; otherwise it returns the stored document, whose rendered id is the lower-cased argument |
| `Repository.ProductRepository.FindAll` | internal/repository/product_repository.go:62-75 | every stored document, in natural order, unless the driver fails |
| `Repository.ProductRepository.Update` | internal/repository/product_repository.go:77-90 | a malformed id fails first and changes nothing, not even the clock; otherwise updatedAt is set to a new clock reading, and the matching document is overwritten with the product under its own key; an absent id is no error and changes nothing; another non-nil id cannot replace the stored one; natural order and other documents are unchanged |
| `Repository.ProductRepository.Delete` | internal/repository/product_repository.go:92-100 | a malformed id fails and changes nothing; otherwise the document is removed from the table and from natural order, with no error even when nothing matched |
| `Repository.ProductRepository.Search` | internal/repository/product_repository.go:102-145 | unless the driver fails, the result is a search answer over the stored products for exactly the given criteria |
| `Service.MapProductToResponse` | internal/service/product_service.go:108-117 | the response's id is the canonical lower-case hex form of the product's id and parses back to it; name, description, price and timestamps are copied unchanged |
| `Service.MapProductsToResponses` | internal/service/product_service.go:59-62 | one response per product, in the same order |
| `Service.Merge` | internal/service/product_service.go:73-81 | name and description are replaced only by non-empty strings, and price only by a price > 0; the id and both timestamps are kept |
| `Service.MergeNothingSupplied` | internal/service/product_service.go:73-81 | a request with "", "" and a price <= 0 leaves the product unchanged |
| `Service.MergeOnlyPrice` | internal/service/product_service.go:73-81 | a request that supplies only a price changes only the price |
| `Service.MergeIdempotent` | internal/service/product_service.go:73-81 | merging the same request twice equals merging it once |
| `Service.MergeComposes` | internal/service/product_service.go:73-81 | two successive merges equal one merge of the combined request, in which the later supplied fields win |
| `Service.ProductService.constructor` | internal/service/product_service.go:24-28 | the service uses the given store adapter |
| `Service.ProductService.CreateProduct` | internal/service/product_service.go:30-42 | name, description and price are copied unchecked into a product stored under the generated id, with createdAt <= updatedAt; the response is that product's view; a store error is returned with no response and no change |
| `Service.ProductService.GetProduct` | internal/service/product_service.go:44-51 | the view of the stored product, or the store's error: InvalidId, Unavailable or NoDocuments |
| `Service.ProductService.GetAllProducts` | internal/service/product_service.go:53-65 | one view per stored product, in natural order, or the driver's error |
| `Service.ProductService.UpdateProduct` | internal/service/product_service.go:67-88 | a failed read returns its error and leaves the store and the clock alone; otherwise the stored product becomes the merge with a refreshed updatedAt that is no earlier than the old one; the id and createdAt are kept; the response is the view of what was written; a failed write returns its error with no response and no change to the table |
| `Service.ProductService.DeleteProduct` | internal/service/product_service.go:90-92 | the store adapter's delete, with its result unchanged |
| `Service.ProductService.SearchProducts` | internal/service/product_service.go:94-106 | the criteria are passed unchanged; the responses are the views of a search answer, one per product and in its order, or the driver's error |

## Left out

- HTTP routing, request binding and status codes (`internal/controller/product_controller.go`) are not part of this model. Neither is process start-up, configuration, logging or shutdown (`main.go`).
- The `validate` tags on the request types are left out, because no validator is registered. The service accepts any name and price.
- Context deadlines and cancellation, and every other driver failure, are one `fault` flag per store call. The model does not say why a call failed.
- `Repository.ProductRepository.Create` assumes that an insert whose driver call fails had no effect. A timeout, a cancelled context or a write-concern error can arrive after the server already stored the document; the model does not cover that case.
- `Repository.ProductRepository.Update` assumes the same of a failed update: the server may already have applied it when the error arrives, and the model does not cover that case. `Service.ProductService.UpdateProduct` inherits the assumption.
- `Repository.ProductRepository.Delete` assumes the same of a failed delete, and `Service.ProductService.DeleteProduct` and `Service.ProductService.CreateProduct` inherit it from the calls they make.
- The lost-update race between concurrent partial updates is left out: the model is sequential.
- `Repository.ProductRepository.Create` and `Repository.ProductRepository.Update` write the id and timestamps into the caller's struct through a pointer. The model returns the updated struct as an out-parameter instead, so it does not capture aliasing of that struct.
- Generating object ids is left out. The driver's new id is the `generated` argument.
- `SearchQuery.ContainsFold` treats the `$regex` pattern as a literal string and folds only ASCII letters. Regular-expression metacharacters and Unicode case folding are left out.
- `Repository.ProductRepository.Search`: when prices are equal, the store promises no order, so `SearchQuery.IsSearchAnswer` does not fix one. The model itself computes a stable sort.
- The collection's natural order is modelled as insertion order, which the store does not strictly guarantee.
- Timestamps are clock readings. Their RFC 3339 (section 5.6) rendering in responses is left out, and so is the millisecond precision of stored dates.
- Prices are reals, so NaN and infinities of `float64` are left out. The core only compares prices.
- Go's nil slice for an empty result is modelled as the empty sequence.
