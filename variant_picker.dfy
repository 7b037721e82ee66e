/**
 * The "add to cart" variant picker. The POS screen (frontend features/pos/pos.component.ts)
 * and the product list (features/products/product-list/product-list.component.ts)
 * carry the same three fields and the same transitions; they differ only in the
 * wording of their toasts, which `Screen` selects.
 */
module VariantPicker {

  import opened Wrappers
  import opened Text
  import opened ClientModels
  import Cart
  import Toasts
  import Display

  /** Which component the picker belongs to. */
  datatype Screen = PointOfSale | ProductCatalogue

  /** `variants.find(v => v.id === id)`: the first variant with that id. */
  function FindVariant(variants: seq<VariantView>, id: int): (r: Option<VariantView>)
    ensures r.None? <==> forall i :: 0 <= i < |variants| ==> variants[i].id != id
    ensures r.Some? ==> r.value in variants && r.value.id == id
    ensures forall k :: 0 <= k < |variants| && variants[k].id == id && (forall i :: 0 <= i < k ==> variants[i].id != id)
                        ==> r == Some(variants[k])
    decreases |variants|
  {
    if variants == [] then None
    else if variants[0].id == id then Some(variants[0])
    else
      var r := FindVariant(variants[1..], id);
      assert forall i :: 1 <= i < |variants| ==> variants[i] == variants[1..][i - 1];
      r
  }

  /** The variant a confirmation would add: a product is being picked for, an id is
      selected, and the product has a variant with that id. */
  function Chosen(product: Option<ProductView>, variantId: Option<int>): Option<VariantView> {
    if product.Some? && variantId.Some? then FindVariant(product.value.variants, variantId.value) else None
  }

  /** The error toast for a product without variants. */
  function NoVariantsMessage(screen: Screen, product: ProductView): string {
    match screen
    case PointOfSale => "\"" + product.name + "\" has no variants."
    case ProductCatalogue => "\"" + product.name + "\" has no variants. Add sizes/colors first."
  }

  /** The success toast after adding `qty` of a variant. */
  function AddedMessage(screen: Screen, product: ProductView, variant: VariantView, qty: int): string {
    match screen
    case PointOfSale =>
      "\"" + product.name + " \U{00B7} " + variant.sku + "\" \U{00D7}" + IntToString(qty) + " added"
    case ProductCatalogue =>
      "\"" + product.name + " \U{00B7} " + Display.ToastLabel(variant) + "\" \U{00D7}" + IntToString(qty) + " added to cart"
  }

  /** The picker's state, with the cart and the toast queue it reports to. */
  class Picker {

    const screen: Screen
    const cart: Cart.CartService
    const toasts: Toasts.ToastService
    var selectingProduct: Option<ProductView>
    var selectedVariantId: Option<int>
    var pickQty: int

    /** The quantity stepper never goes below one. */
    predicate Valid()
      reads this
    {
      pickQty >= 1
    }

    /** A closed picker. */
    constructor(screen: Screen, cart: Cart.CartService, toasts: Toasts.ToastService)
      ensures this.screen == screen && this.cart == cart && this.toasts == toasts
      ensures selectingProduct == None && selectedVariantId == None && pickQty == 1
      ensures Valid()
    {
      this.screen := screen;
      this.cart := cart;
      this.toasts := toasts;
      selectingProduct := None;
      selectedVariantId := None;
      pickQty := 1;
    }

    /** `startAddToCart(product)`: refused with an error toast when the product has no variants. */
    method StartAddToCart(product: ProductView)
      modifies this, toasts
      ensures product.variants == [] ==>
        && selectingProduct == old(selectingProduct) && selectedVariantId == old(selectedVariantId)
        && pickQty == old(pickQty)
        && toasts.next == old(toasts.next) + 1
        && toasts.toasts == old(toasts.toasts) + [Toasts.Toast(toasts.next, Toasts.Error, NoVariantsMessage(screen, product))]
      ensures product.variants != [] ==>
        && selectingProduct == Some(product) && selectedVariantId == None && pickQty == 1
        && unchanged(toasts)
      ensures old(Valid()) ==> Valid()
      ensures old(toasts.Valid()) ==> toasts.Valid()
    {
      if |product.variants| == 0 {
        toasts.Error(NoVariantsMessage(screen, product));
        return;
      }
      selectingProduct := Some(product);
      selectedVariantId := None;
      pickQty := 1;
    }

    /** Clicking a variant of the open picker selects it. */
    method SelectVariant(variantId: int)
      modifies this
      ensures selectedVariantId == Some(variantId)
      ensures selectingProduct == old(selectingProduct) && pickQty == old(pickQty)
    {
      selectedVariantId := Some(variantId);
    }

    /** The "-" stepper; it is disabled at a quantity of one or less. */
    method Decrement()
      modifies this
      ensures pickQty == if old(pickQty) <= 1 then old(pickQty) else old(pickQty) - 1
      ensures selectingProduct == old(selectingProduct) && selectedVariantId == old(selectedVariantId)
      ensures old(Valid()) ==> Valid()
    {
      if pickQty > 1 {
        pickQty := pickQty - 1;
      }
    }

    /** The "+" stepper. */
    method Increment()
      modifies this
      ensures pickQty == old(pickQty) + 1
      ensures selectingProduct == old(selectingProduct) && selectedVariantId == old(selectedVariantId)
      ensures old(Valid()) ==> Valid()
    {
      pickQty := pickQty + 1;
    }

    /** `cancelVariantPick()`: closes the picker and resets the selection and quantity. */
    method CancelVariantPick()
      modifies this
      ensures selectingProduct == None && selectedVariantId == None && pickQty == 1
      ensures Valid()
    {
      selectingProduct := None;
      selectedVariantId := None;
      pickQty := 1;
    }

    /**
     * `confirmAddToCart()`: without a product, a selection or a matching variant it
     * does nothing; otherwise it adds `pickQty` of the variant to the cart, reports it
     * and closes the picker.
     */
    method ConfirmAddToCart()
      modifies this, cart, toasts
      ensures var chosen := Chosen(old(selectingProduct), old(selectedVariantId));
        chosen.None? ==>
          && selectingProduct == old(selectingProduct) && selectedVariantId == old(selectedVariantId)
          && pickQty == old(pickQty) && unchanged(cart) && unchanged(toasts)
      ensures var chosen := Chosen(old(selectingProduct), old(selectedVariantId));
        chosen.Some? ==>
          && cart.items == Cart.Added(old(cart.items), old(selectingProduct).value, chosen.value, old(pickQty))
          && toasts.next == old(toasts.next) + 1
          && toasts.toasts == old(toasts.toasts)
               + [Toasts.Toast(toasts.next, Toasts.Success,
                               AddedMessage(screen, old(selectingProduct).value, chosen.value, old(pickQty)))]
          && selectingProduct == None && selectedVariantId == None && pickQty == 1
      ensures old(Valid()) ==> Valid()
      ensures old(cart.Valid()) ==> cart.Valid()
      ensures old(toasts.Valid()) ==> toasts.Valid()
    {
      var product := selectingProduct;
      var variantId := selectedVariantId;
      if product.None? || variantId.None? {
        return;
      }
      var variant := FindVariant(product.value.variants, variantId.value);
      if variant.None? {
        return;
      }
      var qty := pickQty;
      cart.Add(product.value, variant.value, qty);
      toasts.Success(AddedMessage(screen, product.value, variant.value, qty));
      CancelVariantPick();
    }
  }
}
