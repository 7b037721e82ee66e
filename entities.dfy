/**
 * The backend's domain entities (ProductManager.Domain/Entities), one row type per
 * table. Every entity has an `Id` and, from its base class, creation and update
 * times; timestamps are kept only on products, where the service reads and writes them.
 * Strings that the schema marks required are `string`, nullable ones `Option<string>`.
 * Money (`decimal(18,2)`) is a whole number of cents.
 */
module Entities {

  import opened Wrappers

  /** A category row. */
  datatype Category = Category(id: int, name: string, description: Option<string>)

  /** A product row; its size, colour and variant rows live in their own tables. */
  datatype Product = Product(
    id: int,
    name: string,
    sku: string,
    barcode: Option<string>,
    price: int,
    imageUrl: Option<string>,
    categoryId: Option<int>,
    createdAt: int,
    updatedAt: Option<int>)

  /** A size tag of a product. */
  datatype ProductSize = ProductSize(id: int, productId: int, size: string)

  /** A colour tag of a product. */
  datatype ProductColor = ProductColor(id: int, productId: int, color: string)

  /** A sellable size/colour combination of a product. */
  datatype ProductVariant = ProductVariant(
    id: int,
    productId: int,
    size: Option<string>,
    color: Option<string>,
    sku: string,
    barcode: Option<string>,
    priceAdjustment: Option<int>,
    stock: int)

  /**
   * A product object with its navigation properties loaded: the category it points
   * to and its size, colour and variant collections. Id 0 marks an object not yet saved.
   */
  datatype LoadedProduct = LoadedProduct(
    product: Product,
    category: Option<Category>,
    sizes: seq<ProductSize>,
    colors: seq<ProductColor>,
    variants: seq<ProductVariant>)
}
