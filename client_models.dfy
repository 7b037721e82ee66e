/**
 * The client's view of the API (frontend core/models/product.model.ts): the product
 * and variant objects the list endpoints return, as the browser holds them, and the
 * line items of the shopping cart. Optional properties are `Option`s; money is a
 * whole number of cents, as on the server.
 */
module ClientModels {

  import opened Wrappers

  /** `ProductVariant` as the client receives it. */
  datatype VariantView = VariantView(
    id: int,
    size: Option<string>,
    color: Option<string>,
    sku: string,
    barcode: Option<string>,
    stock: int,
    priceAdjustment: Option<int>)

  /** `Product` as the client receives it; `createdAt` arrives as an ISO date string. */
  datatype ProductView = ProductView(
    id: int,
    name: string,
    sku: string,
    barcode: Option<string>,
    price: int,
    imageUrl: Option<string>,
    categoryId: Option<int>,
    categoryName: Option<string>,
    sizes: seq<string>,
    colors: seq<string>,
    variants: seq<VariantView>,
    createdAt: string)

  /**
   * `CartItem`: one cart line. `id` is the line's key, built from the product and
   * variant ids; the product's name, SKU, price and image are copied when the line
   * is created.
   */
  datatype CartItem = CartItem(
    id: string,
    productId: int,
    productName: string,
    productSku: string,
    productPrice: int,
    productImageUrl: Option<string>,
    variant: VariantView,
    quantity: int)
}
