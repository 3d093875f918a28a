/**
 * The persisted product document and the request/response shapes exchanged
 * with the HTTP layer. Prices are only ever compared, so they are reals;
 * instants are clock readings.
 */
module Model {
  import opened ObjectIds

  type Price = real

  /** A clock reading; its textual rendering is not part of this model. */
  type Time = int

  /** A stored product; `id` is `Nil` until the store assigns one. */
  datatype Product = Product(
    id: ObjectId,
    name: string,
    description: string,
    price: Price,
    createdAt: Time,
    updatedAt: Time)

  datatype CreateProductRequest = CreateProductRequest(name: string, description: string, price: Price)

  /** An empty string or a price <= 0 means "not supplied". */
  datatype UpdateProductRequest = UpdateProductRequest(name: string, description: string, price: Price)

  datatype SearchProductRequest = SearchProductRequest(
    name: string,
    exactMatch: bool,
    minPrice: Price,
    maxPrice: Price,
    sortByPrice: string)

  /** The outward view of a product: the id in its external string form. */
  datatype ProductResponse = ProductResponse(
    id: string,
    name: string,
    description: string,
    price: Price,
    createdAt: Time,
    updatedAt: Time)

  /** What the store adapter can fail with. */
  datatype StoreError =
    | InvalidId      // the id string is not a well-formed object id
    | NoDocuments    // a lookup matched nothing
    | DuplicateKey   // an insert reused an id already stored
    | ImmutableId    // an update tried to change a stored document's id
    | Unavailable    // the driver call itself failed (connection, timeout, cancellation)
}
