/**
 * The product table screen (frontend features/products/product-list/product-list.component.ts):
 * the listed products, the add/edit dialog's open state, the search box, and the
 * variant picker it shares with the POS screen.
 */
module ProductList {

  import opened Wrappers
  import opened ClientModels
  import Toasts
  import Display
  import VariantPicker

  /** `ProductListComponent`. */
  class ProductListComponent {

    const picker: VariantPicker.Picker
    const toasts: Toasts.ToastService
    var products: seq<ProductView>
    var loading: bool
    var searchText: Option<string>
    var dialogOpen: bool
    var editingProduct: Option<ProductView>

    /** An empty table waiting for its first load, with the dialog closed. */
    constructor(picker: VariantPicker.Picker, toasts: Toasts.ToastService)
      ensures this.picker == picker && this.toasts == toasts
      ensures products == [] && loading && searchText == Some("") && !dialogOpen && editingProduct == None
    {
      this.picker := picker;
      this.toasts := toasts;
      products := [];
      loading := true;
      searchText := Some("");
      dialogOpen := false;
      editingProduct := None;
    }

    /** `totalVariants`. */
    function TotalVariants(): nat
      reads this
    {
      Display.TotalVariants(products)
    }

    /** `load(search)`: marks the table loading and yields the search text to request. */
    method Load(search: string) returns (request: string)
      modifies this
      ensures loading && request == search
      ensures products == old(products) && dialogOpen == old(dialogOpen) && editingProduct == old(editingProduct)
      ensures searchText == old(searchText)
    {
      loading := true;
      request := search;
    }

    /** The products of a finished load replace the table. */
    method Loaded(result: seq<ProductView>)
      modifies this
      ensures products == result && !loading
      ensures dialogOpen == old(dialogOpen) && editingProduct == old(editingProduct) && searchText == old(searchText)
    {
      products := result;
      loading := false;
    }

    /** A failed load keeps the old table and reports the failure. */
    method LoadFailed()
      modifies this, toasts
      ensures products == old(products) && !loading
      ensures dialogOpen == old(dialogOpen) && editingProduct == old(editingProduct) && searchText == old(searchText)
      ensures toasts.next == old(toasts.next) + 1
      ensures toasts.toasts == old(toasts.toasts) + [Toasts.Toast(toasts.next, Toasts.Error, "Failed to load products")]
    {
      loading := false;
      toasts.Error("Failed to load products");
    }

    /** `openDialog()`: the dialog opens for a new product. */
    method OpenDialog()
      modifies this
      ensures editingProduct == None && dialogOpen
      ensures products == old(products) && loading == old(loading) && searchText == old(searchText)
    {
      editingProduct := None;
      dialogOpen := true;
    }

    /** `editProduct(product)`: the dialog opens on an existing product. */
    method EditProduct(product: ProductView)
      modifies this
      ensures editingProduct == Some(product) && dialogOpen
      ensures products == old(products) && loading == old(loading) && searchText == old(searchText)
    {
      editingProduct := Some(product);
      dialogOpen := true;
    }

    /** `closeDialog()`: the dialog closes; which product it was editing is kept. */
    method CloseDialog()
      modifies this
      ensures !dialogOpen && editingProduct == old(editingProduct)
      ensures products == old(products) && loading == old(loading) && searchText == old(searchText)
    {
      dialogOpen := false;
    }

    /** `onSaved()`: the dialog closes and the table reloads with the current search text. */
    method OnSaved() returns (request: string)
      modifies this
      ensures !dialogOpen && editingProduct == old(editingProduct)
      ensures loading && request == old(searchText).GetOr("")
      ensures products == old(products) && searchText == old(searchText)
    {
      CloseDialog();
      request := Load(searchText.GetOr(""));
    }
  }
}
