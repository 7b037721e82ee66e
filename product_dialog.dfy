/**
 * The add/edit product dialog (frontend features/products/product-dialog/product-dialog.component.ts):
 * the size and colour tag lists, the live preview of the variant SKUs, the form's
 * validators, the request it sends, and the checks on a chosen image file.
 */
module ProductDialog {

  import opened Wrappers
  import opened Text
  import opened Lists
  import opened ClientModels
  import Toasts
  import Database
  import VariantBuilder

  // ---------------------------------------------------------------------------
  // Tag lists
  // ---------------------------------------------------------------------------

  /** `addSize` / `addColor` on a list: the trimmed input is appended when it is not empty and not yet listed. */
  function AddTag(tags: seq<string>, input: Option<string>): seq<string> {
    if input.None? then tags
    else
      var v := Trim(JavaScript, input.value);
      if v != "" && v !in tags then tags + [v] else tags
  }

  /** The filter predicate of `removeSize(s)` / `removeColor(c)`. */
  function OtherTag(tag: string): string -> bool {
    (x: string) => x != tag
  }

  /** `removeSize` / `removeColor` on a list. */
  function RemoveTag(tags: seq<string>, tag: string): seq<string> {
    Filter(tags, OtherTag(tag))
  }

  /** A tag list as the dialog builds it: no repeats and no blank entries. */
  predicate CleanTags(tags: seq<string>) {
    NoDuplicates(tags) && forall i :: 0 <= i < |tags| ==> !IsBlank(JavaScript, tags[i])
  }

  // ---------------------------------------------------------------------------
  // Variant preview
  // ---------------------------------------------------------------------------

  /** The preview's base: the form's SKU (or "SKU" before the form exists), upper-cased,
      each whitespace run turned into "-". */
  function PreviewBase(sku: Option<string>): string {
    CollapseWhiteSpace(Upper(sku.GetOr("SKU")))
  }

  /** The preview of a size: only upper-cased. */
  function SizePreview(base: string, size: string): string {
    base + "-" + Upper(size)
  }

  /** The preview of a colour: upper-cased, with whitespace runs turned into "-". */
  function ColorPreview(base: string, color: string): string {
    base + "-" + CollapseWhiteSpace(Upper(color))
  }

  /** The preview of a size and colour pair. */
  function PairPreview(base: string, size: string, color: string): string {
    SizePreview(base, size) + "-" + CollapseWhiteSpace(Upper(color))
  }

  /** `sizes.flatMap(sz => colors.map(cl => …))`. */
  function PreviewGrid(base: string, sizes: seq<string>, colors: seq<string>): seq<string>
    decreases |sizes|
  {
    if sizes == [] then []
    else
      PreviewGrid(base, sizes[..|sizes| - 1], colors)
      + seq(|colors|, j requires 0 <= j < |colors| => PairPreview(base, sizes[|sizes| - 1], colors[j]))
  }

  /** `previewVariants`. */
  function PreviewVariants(sku: Option<string>, sizes: seq<string>, colors: seq<string>): seq<string> {
    var base := PreviewBase(sku);
    if |sizes| == 0 && |colors| == 0 then []
    else if |sizes| > 0 && |colors| > 0 then PreviewGrid(base, sizes, colors)
    else if |sizes| > 0 then SizePreviews(base, sizes)
    else ColorPreviews(base, colors)
  }

  /** `sizes.map(sz => …)`. */
  function SizePreviews(base: string, sizes: seq<string>): seq<string> {
    seq(|sizes|, i requires 0 <= i < |sizes| => SizePreview(base, sizes[i]))
  }

  /** `colors.map(cl => …)`. */
  function ColorPreviews(base: string, colors: seq<string>): seq<string> {
    seq(|colors|, i requires 0 <= i < |colors| => ColorPreview(base, colors[i]))
  }

  /** The preview string of one size/colour combination. */
  function ComboPreview(base: string, c: VariantBuilder.Combo): string {
    base + (if c.size.Some? then "-" + Upper(c.size.value) else "")
         + (if c.color.Some? then "-" + CollapseWhiteSpace(Upper(c.color.value)) else "")
  }

  /** The preview strings of a list of combinations. */
  function ComboPreviews(base: string, combos: seq<VariantBuilder.Combo>): seq<string> {
    seq(|combos|, k requires 0 <= k < |combos| => ComboPreview(base, combos[k]))
  }

  /** A piece of text with no whitespace for either runtime. */
  predicate Plain(s: string) {
    s != "" && HasNoWhiteSpace(JavaScript, s) && HasNoWhiteSpace(DotNet, s)
  }

  /** A tag list of plain, distinct entries. */
  predicate PlainTags(tags: seq<string>) {
    NoDuplicates(tags) && forall i :: 0 <= i < |tags| ==> Plain(tags[i])
  }

  // ---------------------------------------------------------------------------
  // Form, request and image checks
  // ---------------------------------------------------------------------------

  /** The reactive form's value. A cleared price field is `None` (`null`). */
  datatype FormValue = FormValue(
    name: string,
    sku: string,
    barcode: string,
    price: Option<int>,
    categoryId: Option<int>,
    imageUrl: string)

  /** The validators' limits. */
  const MaxNameLength: nat := 200
  const MaxSkuLength: nat := 100

  /**
   * The form is valid: name and SKU are filled (`required` rejects only an empty value)
   * and within their `maxLength`, and a price is given and is not negative.
   */
  predicate FormValid(f: FormValue) {
    0 < |f.name| <= MaxNameLength && 0 < |f.sku| <= MaxSkuLength && f.price.Some? && f.price.value >= 0
  }

  /** `ngOnInit`'s form: the edited product's values, or empty fields for a new one. */
  function InitialForm(p: Option<ProductView>): FormValue {
    if p.None? then FormValue("", "", "", None, None, "")
    else FormValue(p.value.name, p.value.sku, p.value.barcode.GetOr(""), Some(p.value.price),
                   p.value.categoryId, p.value.imageUrl.GetOr(""))
  }

  /** The create/update request body. */
  datatype ProductRequest = ProductRequest(
    name: string,
    sku: string,
    barcode: string,
    price: Option<int>,
    imageUrl: string,
    categoryId: Option<int>,
    sizes: seq<string>,
    colors: seq<string>)

  /** `createOrUpdateProduct`'s payload: the form's values with the SKU upper-cased, the
      given image URL and the current tag lists. */
  function Payload(f: FormValue, imageUrl: string, sizes: seq<string>, colors: seq<string>): ProductRequest {
    ProductRequest(f.name, Upper(f.sku), f.barcode, f.price, imageUrl, f.categoryId, sizes, colors)
  }

  /** A file chosen in the image picker. */
  datatype ImageFile = ImageFile(name: string, mimeType: string, size: int)

  /** The accepted image types. */
  const AllowedImageTypes: seq<string> := ["image/jpeg", "image/png", "image/gif", "image/webp"]

  /** The largest accepted image, 5 MiB. */
  const MaxImageBytes: int := 5 * 1024 * 1024

  /** What `onImageSelected` makes of the chosen file. */
  datatype ImageCheck = NoFile | WrongType | TooLarge | Accepted

  /** The checks of `onImageSelected`, in their order. */
  function CheckImage(file: Option<ImageFile>): ImageCheck {
    if file.None? then NoFile
    else if file.value.mimeType !in AllowedImageTypes then WrongType
    else if file.value.size > MaxImageBytes then TooLarge
    else Accepted
  }

  /** The request a submission leads to. */
  datatype SubmitAction =
    | MarkAllTouched
    | UploadImage(file: ImageFile)
    | Send(productId: Option<int>, request: ProductRequest)

  // ---------------------------------------------------------------------------
  // The component
  // ---------------------------------------------------------------------------

  /** `ProductDialogComponent`, from `ngOnInit` on. */
  class ProductDialogComponent {

    const editProduct: Option<ProductView>
    const toasts: Toasts.ToastService
    var form: FormValue
    var touched: bool
    var sizeInput: Option<string>
    var colorInput: Option<string>
    var sizes: seq<string>
    var colors: seq<string>
    var saving: bool
    var selectedImageFile: Option<ImageFile>
    var imagePreview: Option<string>
    var imageFileName: string
    /**
     * The value `previewVariants` shows. It is a `computed` signal over `sizes` and
     * `colors` only, so it is recomputed when one of those is set and not when the
     * form's SKU is edited.
     */
    var preview: seq<string>

    /** A selected image is always one that `onImageSelected` accepted. */
    predicate Valid()
      reads this
    {
      selectedImageFile.Some? ==> CheckImage(selectedImageFile) == Accepted
    }

    /** `ngOnInit`: the form and the tag lists start from the edited product, if any. */
    constructor(editProduct: Option<ProductView>, toasts: Toasts.ToastService)
      ensures this.editProduct == editProduct && this.toasts == toasts
      ensures form == InitialForm(editProduct) && !touched && !saving
      ensures sizes == (if editProduct.Some? then editProduct.value.sizes else [])
      ensures colors == (if editProduct.Some? then editProduct.value.colors else [])
      ensures sizeInput == Some("") && colorInput == Some("")
      ensures selectedImageFile == None && imagePreview == None && imageFileName == ""
      ensures preview == PreviewVariants(Some(form.sku), sizes, colors)
      ensures Valid()
    {
      this.editProduct := editProduct;
      this.toasts := toasts;
      form := InitialForm(editProduct);
      touched := false;
      sizeInput := Some("");
      colorInput := Some("");
      sizes := if editProduct.Some? then editProduct.value.sizes else [];
      colors := if editProduct.Some? then editProduct.value.colors else [];
      saving := false;
      selectedImageFile := None;
      imagePreview := None;
      imageFileName := "";
      new;
      preview := PreviewVariants(Some(form.sku), sizes, colors);
    }

    /** `isEdit`. */
    function IsEdit(): bool
      reads this
    {
      editProduct.Some?
    }

    /**
     * The user edits the form's fields: only the form changes, and the shown
     * preview keeps the SKU it was last computed with.
     */
    method EditForm(f: FormValue)
      modifies this
      ensures form == f && preview == old(preview)
      ensures sizes == old(sizes) && colors == old(colors) && sizeInput == old(sizeInput) && colorInput == old(colorInput)
      ensures touched == old(touched) && saving == old(saving)
      ensures selectedImageFile == old(selectedImageFile) && imagePreview == old(imagePreview) && imageFileName == old(imageFileName)
      ensures old(Valid()) ==> Valid()
    {
      form := f;
    }

    /** `addSize()`: the size input is taken in and cleared; an added size refreshes the preview. */
    method AddSize()
      modifies this
      ensures sizes == AddTag(old(sizes), old(sizeInput)) && sizeInput == Some("")
      ensures preview == if sizes != old(sizes) then PreviewVariants(Some(form.sku), sizes, colors) else old(preview)
      ensures colors == old(colors) && colorInput == old(colorInput) && form == old(form)
      ensures touched == old(touched) && saving == old(saving)
      ensures selectedImageFile == old(selectedImageFile) && imagePreview == old(imagePreview) && imageFileName == old(imageFileName)
      ensures old(Valid()) ==> Valid()
    {
      var added := AddTag(sizes, sizeInput);
      if added != sizes {
        sizes := added;
        preview := PreviewVariants(Some(form.sku), sizes, colors);
      }
      sizeInput := Some("");
    }

    /** `removeSize(s)`: the list is always replaced, so the preview is recomputed. */
    method RemoveSize(s: string)
      modifies this
      ensures sizes == RemoveTag(old(sizes), s)
      ensures preview == PreviewVariants(Some(form.sku), sizes, colors)
      ensures colors == old(colors) && sizeInput == old(sizeInput) && colorInput == old(colorInput) && form == old(form)
      ensures touched == old(touched) && saving == old(saving)
      ensures selectedImageFile == old(selectedImageFile) && imagePreview == old(imagePreview) && imageFileName == old(imageFileName)
      ensures old(Valid()) ==> Valid()
    {
      sizes := RemoveTag(sizes, s);
      preview := PreviewVariants(Some(form.sku), sizes, colors);
    }

    /** `addColor()`: the colour input is taken in and cleared; an added colour refreshes the preview. */
    method AddColor()
      modifies this
      ensures colors == AddTag(old(colors), old(colorInput)) && colorInput == Some("")
      ensures preview == if colors != old(colors) then PreviewVariants(Some(form.sku), sizes, colors) else old(preview)
      ensures sizes == old(sizes) && sizeInput == old(sizeInput) && form == old(form)
      ensures touched == old(touched) && saving == old(saving)
      ensures selectedImageFile == old(selectedImageFile) && imagePreview == old(imagePreview) && imageFileName == old(imageFileName)
      ensures old(Valid()) ==> Valid()
    {
      var added := AddTag(colors, colorInput);
      if added != colors {
        colors := added;
        preview := PreviewVariants(Some(form.sku), sizes, colors);
      }
      colorInput := Some("");
    }

    /** `removeColor(c)`: the list is always replaced, so the preview is recomputed. */
    method RemoveColor(c: string)
      modifies this
      ensures colors == RemoveTag(old(colors), c)
      ensures preview == PreviewVariants(Some(form.sku), sizes, colors)
      ensures sizes == old(sizes) && sizeInput == old(sizeInput) && colorInput == old(colorInput) && form == old(form)
      ensures touched == old(touched) && saving == old(saving)
      ensures selectedImageFile == old(selectedImageFile) && imagePreview == old(imagePreview) && imageFileName == old(imageFileName)
      ensures old(Valid()) ==> Valid()
    {
      colors := RemoveTag(colors, c);
      preview := PreviewVariants(Some(form.sku), sizes, colors);
    }

    /** The request `createOrUpdateProduct(imageUrl)` sends: an update of the edited product, or a create. */
    function Request(imageUrl: string): SubmitAction
      reads this
    {
      Send(if editProduct.Some? then Some(editProduct.value.id) else None, Payload(form, imageUrl, sizes, colors))
    }

    /**
     * `submit()`: an invalid form only marks its fields touched; otherwise saving
     * starts, with the image upload first when a file is selected.
     */
    method Submit() returns (action: SubmitAction)
      modifies this
      ensures !FormValid(old(form)) ==> action == MarkAllTouched && touched && saving == old(saving)
      ensures FormValid(old(form)) && old(selectedImageFile).Some? ==>
        action == UploadImage(old(selectedImageFile).value) && saving && touched == old(touched)
      ensures FormValid(old(form)) && old(selectedImageFile).None? ==>
        action == old(Request(form.imageUrl)) && saving && touched == old(touched)
      ensures form == old(form) && sizes == old(sizes) && colors == old(colors) && preview == old(preview)
      ensures sizeInput == old(sizeInput) && colorInput == old(colorInput)
      ensures selectedImageFile == old(selectedImageFile) && imagePreview == old(imagePreview) && imageFileName == old(imageFileName)
      ensures old(Valid()) ==> Valid()
      ensures old(Valid()) && action.UploadImage? ==> CheckImage(Some(action.file)) == Accepted
    {
      if !FormValid(form) {
        touched := true;
        return MarkAllTouched;
      }
      saving := true;
      if selectedImageFile.Some? {
        return UploadImage(selectedImageFile.value);
      }
      action := Request(form.imageUrl);
    }

    /** The upload finished: the request goes out with the stored image's URL. */
    method UploadSucceeded(imageUrl: string) returns (action: SubmitAction)
      ensures action == Request(imageUrl)
    {
      action := Request(imageUrl);
    }

    /** The upload failed: saving stops and the server's message, or a default, is shown. */
    method UploadFailed(message: Option<string>)
      modifies this, toasts
      ensures !saving && form == old(form) && sizes == old(sizes) && colors == old(colors) && preview == old(preview)
      ensures touched == old(touched) && sizeInput == old(sizeInput) && colorInput == old(colorInput)
      ensures toasts.next == old(toasts.next) + 1
      ensures toasts.toasts == old(toasts.toasts)
        + [Toasts.Toast(toasts.next, Toasts.Error, message.GetOr("Image upload failed"))]
      ensures selectedImageFile == old(selectedImageFile) && imagePreview == old(imagePreview) && imageFileName == old(imageFileName)
      ensures old(Valid()) ==> Valid()
    {
      saving := false;
      toasts.Error(message.GetOr("Image upload failed"));
    }

    /** The request succeeded: saving stops and the outcome is reported. */
    method SaveSucceeded()
      modifies this, toasts
      ensures !saving && form == old(form) && sizes == old(sizes) && colors == old(colors) && preview == old(preview)
      ensures touched == old(touched) && sizeInput == old(sizeInput) && colorInput == old(colorInput)
      ensures toasts.next == old(toasts.next) + 1
      ensures toasts.toasts == old(toasts.toasts)
        + [Toasts.Toast(toasts.next, Toasts.Success, if IsEdit() then "Product updated!" else "Product created!")]
      ensures selectedImageFile == old(selectedImageFile) && imagePreview == old(imagePreview) && imageFileName == old(imageFileName)
      ensures old(Valid()) ==> Valid()
    {
      saving := false;
      toasts.Success(if IsEdit() then "Product updated!" else "Product created!");
    }

    /** The request failed: saving stops and the server's message, or a default, is shown. */
    method SaveFailed(message: Option<string>)
      modifies this, toasts
      ensures !saving && form == old(form) && sizes == old(sizes) && colors == old(colors) && preview == old(preview)
      ensures touched == old(touched) && sizeInput == old(sizeInput) && colorInput == old(colorInput)
      ensures toasts.next == old(toasts.next) + 1
      ensures toasts.toasts == old(toasts.toasts)
        + [Toasts.Toast(toasts.next, Toasts.Error, message.GetOr(if IsEdit() then "Update failed" else "Create failed"))]
      ensures selectedImageFile == old(selectedImageFile) && imagePreview == old(imagePreview) && imageFileName == old(imageFileName)
      ensures old(Valid()) ==> Valid()
    {
      saving := false;
      toasts.Error(message.GetOr(if IsEdit() then "Update failed" else "Create failed"));
    }

    /**
     * `onImageSelected`: an accepted file becomes the selected image; a file of the
     * wrong type or size is refused with an error toast, and no file does nothing.
     */
    method OnImageSelected(file: Option<ImageFile>)
      modifies this, toasts
      ensures CheckImage(file) == Accepted ==>
        selectedImageFile == file && imageFileName == file.value.name && unchanged(toasts)
      ensures CheckImage(file) != Accepted ==>
        selectedImageFile == old(selectedImageFile) && imageFileName == old(imageFileName)
      ensures CheckImage(file) == NoFile ==> unchanged(toasts)
      ensures CheckImage(file) == WrongType ==>
        && toasts.next == old(toasts.next) + 1
        && toasts.toasts == old(toasts.toasts)
             + [Toasts.Toast(toasts.next, Toasts.Error, "Invalid file type. Allowed: JPEG, PNG, GIF, WebP")]
      ensures CheckImage(file) == TooLarge ==>
        && toasts.next == old(toasts.next) + 1
        && toasts.toasts == old(toasts.toasts)
             + [Toasts.Toast(toasts.next, Toasts.Error, "File size must be less than 5MB")]
      ensures form == old(form) && sizes == old(sizes) && colors == old(colors) && saving == old(saving) && preview == old(preview)
      ensures touched == old(touched) && sizeInput == old(sizeInput) && colorInput == old(colorInput)
      ensures imagePreview == old(imagePreview)
      ensures old(Valid()) ==> Valid()
    {
      if file.None? {
        return;
      }
      if file.value.mimeType !in AllowedImageTypes {
        toasts.Error("Invalid file type. Allowed: JPEG, PNG, GIF, WebP");
        return;
      }
      if file.value.size > MaxImageBytes {
        toasts.Error("File size must be less than 5MB");
        return;
      }
      selectedImageFile := file;
      imageFileName := file.value.name;
    }

    /** The `FileReader` started by `onImageSelected` finished: its data URL becomes the image preview. */
    method ImageRead(dataUrl: string)
      modifies this
      ensures imagePreview == Some(dataUrl)
      ensures form == old(form) && sizes == old(sizes) && colors == old(colors) && saving == old(saving) && preview == old(preview)
      ensures touched == old(touched) && sizeInput == old(sizeInput) && colorInput == old(colorInput)
      ensures selectedImageFile == old(selectedImageFile) && imageFileName == old(imageFileName)
      ensures old(Valid()) ==> Valid()
    {
      imagePreview := Some(dataUrl);
    }

    /** `clearImage()`. */
    method ClearImage()
      modifies this
      ensures selectedImageFile == None && imagePreview == None && imageFileName == ""
      ensures form == old(form) && sizes == old(sizes) && colors == old(colors) && saving == old(saving) && preview == old(preview)
      ensures touched == old(touched) && sizeInput == old(sizeInput) && colorInput == old(colorInput)
      ensures Valid()
    {
      selectedImageFile := None;
      imagePreview := None;
      imageFileName := "";
    }
  }

  // ---------------------------------------------------------------------------
  // Properties
  // ---------------------------------------------------------------------------

  /**
   * `addSize` appends the trimmed input exactly when it is not empty and not yet
   * listed; the entry added has no whitespace at either end; a clean list stays clean.
   */
  lemma AddTagSpec(tags: seq<string>, input: Option<string>)
    ensures var r := AddTag(tags, input);
      && (input.Some? && Trim(JavaScript, input.value) != "" && Trim(JavaScript, input.value) !in tags
          ==> r == tags + [Trim(JavaScript, input.value)])
      && (!(input.Some? && Trim(JavaScript, input.value) != "" && Trim(JavaScript, input.value) !in tags)
          ==> r == tags)
      && (|r| > |tags| ==> !IsWhiteSpace(JavaScript, r[|tags|][0]) && !IsWhiteSpace(JavaScript, r[|tags|][|r[|tags|]| - 1]))
      && (CleanTags(tags) ==> CleanTags(r))
  {
    if input.Some? {
      var v := Trim(JavaScript, input.value);
      TrimEnds(JavaScript, input.value);
      if v != "" {
        TrimmedNonEmptyIsNotBlank(JavaScript, input.value);
      }
    }
  }

  /** `removeSize(t)` drops every entry equal to t, keeps the rest in order, and keeps a clean list clean. */
  lemma RemoveTagSpec(tags: seq<string>, tag: string)
    ensures var r := RemoveTag(tags, tag);
      && tag !in r
      && (forall i :: 0 <= i < |tags| && tags[i] != tag ==> tags[i] in r)
      && (forall i :: 0 <= i < |r| ==> r[i] in tags)
      && (tag !in tags ==> r == tags)
      && (CleanTags(tags) ==> CleanTags(r))
  {
    var r := RemoveTag(tags, tag);
    if tag !in tags {
      FilterAll(tags, OtherTag(tag));
    }
    if CleanTags(tags) {
      FilterPairwise(tags, OtherTag(tag), (a: string, b: string) => a != b);
      forall i | 0 <= i < |r| ensures !IsBlank(JavaScript, r[i]) {
        var k :| 0 <= k < |tags| && tags[k] == r[i];
      }
    }
  }

  /** Removing a tag just added brings the list back. */
  lemma AddThenRemove(tags: seq<string>, input: Option<string>)
    requires input.Some? && Trim(JavaScript, input.value) != "" && Trim(JavaScript, input.value) !in tags
    ensures RemoveTag(AddTag(tags, input), Trim(JavaScript, input.value)) == tags
  {
    var v := Trim(JavaScript, input.value);
    FilterConcat(tags, [v], OtherTag(v));
    FilterAll(tags, OtherTag(v));
    FilterNone([v], OtherTag(v));
  }

  /** The size-and-colour preview follows the combinations the server builds, one string each. */
  lemma {:induction false} PreviewGridIsGrid(base: string, sizes: seq<string>, colors: seq<string>)
    ensures PreviewGrid(base, sizes, colors) == ComboPreviews(base, VariantBuilder.Grid(sizes, colors))
    decreases |sizes|
  {
    if sizes != [] {
      var p := sizes[..|sizes| - 1];
      var size := sizes[|sizes| - 1];
      PreviewGridIsGrid(base, p, colors);
      var row := VariantBuilder.Row(size, colors);
      var g := VariantBuilder.Grid(p, colors);
      assert ComboPreviews(base, g + row) == ComboPreviews(base, g) + ComboPreviews(base, row);
      forall j | 0 <= j < |colors| ensures ComboPreview(base, row[j]) == PairPreview(base, size, colors[j]) {
        assert row[j] == VariantBuilder.Combo(Some(size), Some(colors[j]));
      }
    }
  }

  /** The preview is the preview string of each combination, in the server's combination order. */
  lemma PreviewIsCombos(sku: Option<string>, sizes: seq<string>, colors: seq<string>)
    ensures PreviewVariants(sku, sizes, colors) == ComboPreviews(PreviewBase(sku), VariantBuilder.Combos(sizes, colors))
  {
    var base := PreviewBase(sku);
    if |sizes| > 0 && |colors| > 0 {
      PreviewGridIsGrid(base, sizes, colors);
    } else if |sizes| > 0 {
      SizePreviewsAreCombos(base, sizes);
    } else if |colors| > 0 {
      ColorPreviewsAreCombos(base, colors);
    }
  }

  /** With sizes only, the preview strings are those of the size-only combinations. */
  lemma SizePreviewsAreCombos(base: string, sizes: seq<string>)
    ensures SizePreviews(base, sizes) == ComboPreviews(base, VariantBuilder.SizesOnly(sizes))
  {
    var cs := VariantBuilder.SizesOnly(sizes);
    forall i | 0 <= i < |sizes| ensures ComboPreview(base, cs[i]) == SizePreview(base, sizes[i]) {
      assert cs[i] == VariantBuilder.Combo(Some(sizes[i]), None);
    }
  }

  /** With colours only, the preview strings are those of the colour-only combinations. */
  lemma ColorPreviewsAreCombos(base: string, colors: seq<string>)
    ensures ColorPreviews(base, colors) == ComboPreviews(base, VariantBuilder.ColorsOnly(colors))
  {
    var cs := VariantBuilder.ColorsOnly(colors);
    forall i | 0 <= i < |colors| ensures ComboPreview(base, cs[i]) == ColorPreview(base, colors[i]) {
      assert cs[i] == VariantBuilder.Combo(None, Some(colors[i]));
    }
  }

  /**
   * `r` lists every size/colour pair, size-major: size i with colour j at
   * `Cell(i, j, |colors|)`, which is i * |colors| + j (`VariantBuilder.RowStartIsProduct`).
   */
  predicate SizeMajor(r: seq<string>, base: string, sizes: seq<string>, colors: seq<string>) {
    && |r| == |sizes| * |colors|
    && forall i, j :: 0 <= i < |sizes| && 0 <= j < |colors| ==>
         VariantBuilder.Cell(i, j, |colors|) < |r|
         && r[VariantBuilder.Cell(i, j, |colors|)] == PairPreview(base, sizes[i], colors[j])
  }

  /** With sizes and colours the preview lists every pair, size-major. */
  lemma PreviewPairs(sku: Option<string>, sizes: seq<string>, colors: seq<string>)
    requires sizes != [] && colors != []
    ensures SizeMajor(PreviewVariants(sku, sizes, colors), PreviewBase(sku), sizes, colors)
  {
    assert PreviewVariants(sku, sizes, colors) == PreviewGrid(PreviewBase(sku), sizes, colors);
    PreviewGridShape(PreviewBase(sku), sizes, colors);
  }

  /** The grid preview lists every pair, size-major. */
  lemma PreviewGridShape(base: string, sizes: seq<string>, colors: seq<string>)
    ensures SizeMajor(PreviewGrid(base, sizes, colors), base, sizes, colors)
  {
    var r := PreviewGrid(base, sizes, colors);
    PreviewGridLength(base, sizes, colors);
    forall i, j | 0 <= i < |sizes| && 0 <= j < |colors|
      ensures VariantBuilder.Cell(i, j, |colors|) < |r|
      ensures r[VariantBuilder.Cell(i, j, |colors|)] == PairPreview(base, sizes[i], colors[j])
    {
      PreviewGridAt(base, sizes, colors, i, j);
    }
  }

  /** The grid preview has |sizes| * |colors| entries. */
  lemma PreviewGridLength(base: string, sizes: seq<string>, colors: seq<string>)
    ensures |PreviewGrid(base, sizes, colors)| == |sizes| * |colors|
  {
    VariantBuilder.GridLength(sizes, colors);
    VariantBuilder.RowStartIsProduct(|sizes|, |colors|);
    PreviewGridIsGrid(base, sizes, colors);
  }

  /** Size i and colour j sit at cell (i, j) of the grid preview. */
  lemma PreviewGridAt(base: string, sizes: seq<string>, colors: seq<string>, i: nat, j: nat)
    requires i < |sizes| && j < |colors|
    ensures VariantBuilder.Cell(i, j, |colors|) < |PreviewGrid(base, sizes, colors)|
    ensures PreviewGrid(base, sizes, colors)[VariantBuilder.Cell(i, j, |colors|)] == PairPreview(base, sizes[i], colors[j])
  {
    var g := VariantBuilder.Grid(sizes, colors);
    var k := VariantBuilder.Cell(i, j, |colors|);
    PreviewGridIsGrid(base, sizes, colors);
    VariantBuilder.GridAt(sizes, colors, i, j);
    assert g[k] == VariantBuilder.Combo(Some(sizes[i]), Some(colors[j]));
    assert ComboPreview(base, g[k]) == PairPreview(base, sizes[i], colors[j]);
  }

  /** Plain text passes both SKU separators and case mapping unchanged in shape. */
  lemma PlainParts(s: string)
    requires Plain(s)
    ensures Plain(Upper(s))
    ensures VariantBuilder.SkuPart(s) == Upper(s)
    ensures CollapseWhiteSpace(Upper(s)) == Upper(s)
    ensures !IsNullOrWhiteSpace(Some(s))
  {
    UpperKeepsWhiteSpace(JavaScript, s);
    UpperKeepsWhiteSpace(DotNet, s);
    UpperIdempotent(s);
    SeparatorsOnPlainText(Upper(s));
    assert !IsWhiteSpace(DotNet, s[0]);
  }

  /** An optional plain tag gives the server the part the preview shows. */
  lemma PlainPartIfPresent(p: Option<string>)
    requires p.Some? ==> Plain(p.value)
    ensures VariantBuilder.PartIfPresent(p) == if p.Some? then [Upper(p.value)] else []
    ensures p.Some? ==> CollapseWhiteSpace(Upper(p.value)) == Upper(p.value)
  {
    if p.Some? {
      PlainParts(p.value);
    }
  }

  /** For plain text, the preview of a combination is the SKU the server gives its variant. */
  lemma ComboSkuAgrees(sku: string, c: VariantBuilder.Combo)
    requires Plain(sku)
    requires c.size.Some? ==> Plain(c.size.value)
    requires c.color.Some? ==> Plain(c.color.value)
    ensures ComboPreview(PreviewBase(Some(sku)), c) == VariantBuilder.VariantSku(Upper(sku), c.size, c.color)
  {
    var b := Upper(sku);
    PlainParts(sku);
    UpperIdempotent(sku);
    PlainPartIfPresent(Some(b));
    assert PreviewBase(Some(sku)) == b;
    ComboSkuFromBase(b, c);
  }

  /** The preview of a combination on a base the server keeps as one part is the variant's SKU. */
  lemma ComboSkuFromBase(b: string, c: VariantBuilder.Combo)
    requires VariantBuilder.PartIfPresent(Some(b)) == [b]
    requires c.size.Some? ==> Plain(c.size.value)
    requires c.color.Some? ==> Plain(c.color.value)
    ensures ComboPreview(b, c) == VariantBuilder.VariantSku(b, c.size, c.color)
  {
    PlainPartIfPresent(c.size);
    PlainPartIfPresent(c.color);
    var parts := [b] + VariantBuilder.PartIfPresent(c.size) + VariantBuilder.PartIfPresent(c.color);
    match c {
      case Combo(Some(x), Some(y)) =>
        assert parts == [b, Upper(x), Upper(y)];
        JoinThree("-", b, Upper(x), Upper(y));
      case Combo(Some(x), None) =>
        assert parts == [b, Upper(x)];
        JoinTwo("-", b, Upper(x));
      case Combo(None, Some(y)) =>
        assert parts == [b, Upper(y)];
        JoinTwo("-", b, Upper(y));
      case Combo(None, None) =>
        assert parts == [b];
    }
  }

  /** A list without blank entries passes the server's non-blank filter whole. */
  lemma {:induction false} NonBlankKeepsAll(xs: seq<string>)
    requires forall i :: 0 <= i < |xs| ==> !IsBlank(DotNet, xs[i])
    ensures VariantBuilder.NonBlank(xs) == xs
    decreases |xs|
  {
    if xs != [] {
      var p := xs[..|xs| - 1];
      var x := xs[|xs| - 1];
      NonBlankKeepsAll(p);
      assert VariantBuilder.NonBlank(xs) == VariantBuilder.NonBlank(p) + [x];
      PrefixAndLast(xs);
    }
  }

  /** A plain tag list passes the server's distinct and non-blank filters whole. */
  lemma PlainTagsKept(tags: seq<string>)
    requires PlainTags(tags)
    ensures VariantBuilder.Tags(tags) == tags
  {
    forall i | 0 <= i < |tags| ensures !IsBlank(DotNet, tags[i]) {
      PlainParts(tags[i]);
    }
    DistinctOfDuplicateFree(tags);
    NonBlankKeepsAll(tags);
  }

  /** Every combination of plain tags has plain parts. */
  lemma CombosArePlain(sizes: seq<string>, colors: seq<string>)
    requires PlainTags(sizes) && PlainTags(colors)
    ensures var cs := VariantBuilder.Combos(sizes, colors);
      forall k :: 0 <= k < |cs| ==>
        (cs[k].size.Some? ==> Plain(cs[k].size.value)) && (cs[k].color.Some? ==> Plain(cs[k].color.value))
  {
    if |sizes| > 0 && |colors| > 0 {
      VariantBuilder.GridMembers(sizes, colors);
    }
  }

  /**
   * For a SKU and tags without whitespace, the preview lists exactly the SKUs the
   * server generates for the request, in the same order.
   */
  lemma PreviewMatchesServer(sku: string, sizes: seq<string>, colors: seq<string>, barcodes: seq<VariantBuilder.VariantBarcode>)
    requires Plain(sku) && PlainTags(sizes) && PlainTags(colors)
    ensures var vs := VariantBuilder.Variants(Upper(sku), sizes, colors, barcodes);
      PreviewVariants(Some(sku), sizes, colors) == seq(|vs|, k requires 0 <= k < |vs| => vs[k].sku)
  {
    PlainTagsKept(sizes);
    PlainTagsKept(colors);
    var cs := VariantBuilder.Combos(sizes, colors);
    var vs := VariantBuilder.Variants(Upper(sku), sizes, colors, barcodes);
    assert vs == VariantBuilder.Expand(Upper(sku), cs, barcodes);
    PreviewIsCombos(Some(sku), sizes, colors);
    CombosArePlain(sizes, colors);
    forall k | 0 <= k < |cs| ensures ComboPreview(PreviewBase(Some(sku)), cs[k]) == vs[k].sku {
      ComboSkuAgrees(sku, cs[k]);
    }
  }

  /** The preview keeps an inner space of a size: "TEE" with size "X L" previews as "TEE-X L". */
  lemma PreviewKeepsSpaceInSize()
    ensures PreviewVariants(Some("TEE"), ["X L"], []) == ["TEE-X L"]
  {
    assert Upper("TEE") == "TEE";
    assert HasNoWhiteSpace(JavaScript, "TEE");
    SeparatorsOnPlainText("TEE");
    assert PreviewBase(Some("TEE")) == "TEE";
    assert Upper("X L") == "X L";
    assert SizePreview("TEE", "X L") == "TEE-X L";
    assert SizePreviews("TEE", ["X L"]) == ["TEE-X L"];
  }

  /** The preview for size "S" names the SKU it is computed with. */
  lemma ExampleSkuPreviews()
    ensures PreviewVariants(Some("TEE"), ["S"], []) == ["TEE-S"]
    ensures PreviewVariants(Some("POLO"), ["S"], []) == ["POLO-S"]
  {
    SeparatorsOnPlainText("TEE");
    SeparatorsOnPlainText("POLO");
    assert Upper("TEE") == "TEE" && Upper("POLO") == "POLO" && Upper("S") == "S";
    assert PreviewBase(Some("TEE")) == "TEE";
    assert PreviewBase(Some("POLO")) == "POLO";
    assert SizePreview("TEE", "S") == "TEE-S";
    assert SizePreviews("TEE", ["S"]) == ["TEE-S"];
    assert SizePreview("POLO", "S") == "POLO-S";
    assert SizePreviews("POLO", ["S"]) == ["POLO-S"];
  }

  /**
   * Editing the SKU of a product with SKU "TEE" and size "S" to "POLO" leaves the
   * shown preview at "TEE-S", while the form now gives "POLO-S".
   */
  method StalePreviewAfterSkuEdit(toasts: Toasts.ToastService) returns (c: ProductDialogComponent)
    ensures c.form.sku == "POLO" && c.sizes == ["S"] && c.colors == []
    ensures c.preview == ["TEE-S"]
    ensures PreviewVariants(Some(c.form.sku), c.sizes, c.colors) == ["POLO-S"]
  {
    var p := ProductView(1, "Tee", "TEE", None, 1000, None, None, None, ["S"], [], [], "");
    c := new ProductDialogComponent(Some(p), toasts);
    c.EditForm(c.form.(sku := "POLO"));
    ExampleSkuPreviews();
  }

  /** The server turns that space into "-": the stored SKU is "TEE-X-L", not what the preview shows. */
  lemma ServerHyphenatesSpaceInSize()
    ensures VariantBuilder.VariantSku("TEE", Some("X L"), None) == "TEE-X-L"
  {
    assert !IsWhiteSpace(DotNet, "TEE"[0]) && !IsWhiteSpace(DotNet, "X L"[0]);
    assert Upper("TEE") == "TEE" && ReplaceSpaces("TEE") == "TEE";
    assert Upper("X L") == "X L" && ReplaceSpaces("X L") == "X-L";
    assert VariantBuilder.PartIfPresent(Some("TEE")) == ["TEE"];
    assert VariantBuilder.PartIfPresent(Some("X L")) == ["X-L"];
    var parts := ["TEE"] + ["X-L"] + VariantBuilder.PartIfPresent(None);
    assert parts == ["TEE", "X-L"];
    assert parts[1..] == ["X-L"];
    assert Join("-", parts) == "TEE" + "-" + "X-L";
  }

  /** The request carries the SKU upper-cased, already in the form the server stores, and the tag lists as they are. */
  lemma PayloadSpec(f: FormValue, imageUrl: string, sizes: seq<string>, colors: seq<string>)
    ensures var p := Payload(f, imageUrl, sizes, colors);
      && |p.sku| == |f.sku| && Upper(p.sku) == p.sku
      && p.sizes == sizes && p.colors == colors && p.imageUrl == imageUrl
      && p.name == f.name && p.barcode == f.barcode && p.price == f.price && p.categoryId == f.categoryId
  {
    UpperIdempotent(f.sku);
  }

  /** A valid form's name and SKU fit the database columns. */
  lemma ValidFormFitsColumns(f: FormValue, imageUrl: string, sizes: seq<string>, colors: seq<string>)
    requires FormValid(f)
    ensures var p := Payload(f, imageUrl, sizes, colors);
      0 < |p.name| <= Database.MaxProductName && 0 < |p.sku| <= Database.MaxSku
  {
    UpperIdempotent(f.sku);
  }
}
