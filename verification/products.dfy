/** A catalogue entry as the JSON resources `products.json`, `pay.json` and
    `free.json` describe it. Every field is optional; the ones the scripts
    compare or convert keep their JSON primitive value. Image URLs, CTA
    links and other view-only fields are not part of the record. */
module Products {
  import opened JsValue

  /** The `description` field: either an array of entries or a single value. */
  datatype Description = Entries(items: seq<Prim>) | Single(value: Prim)

  datatype Product = Product(
    id: Prim,
    name: Prim,
    kind: Prim,          // JSON key `type`
    category: Prim,
    difficulty: Prim,
    price: Prim,
    priceUsd: Prim,      // JSON key `price_usd`
    usd: Prim,
    description: Description,
    hasPattern: Prim)

  /** The source names the catalogue page knows. */
  const ProductsSource := "products.json"
  const PaySource := "pay.json"
  const FreeSource := "free.json"
}
