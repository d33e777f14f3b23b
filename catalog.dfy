/** The data shared by the Catalog API and the Catalog UI. */
module Catalog {

  import opened Wrappers

  /** A JavaScript number as the forms see it, restricted to integers:
      `None` stands for NaN (what `parseInt` or `Number` yield for text
      that is not a number). */
  type Num = Option<int>

  /** One row of the Products table, keyed by the caller-chosen `productId`.
      `price` and `rating` are kept as opaque integers. */
  datatype Product = Product(
    productId: string,
    name: string,
    price: int,
    stockQuantity: int,
    rating: int)
}
