/**
 * The product service (ProductService.cs): the create, update and delete rules of the
 * catalogue, and the mapping of loaded products to response objects.
 *
 * Create and update refuse a SKU another product already has, store the SKU upper-cased,
 * store the size and colour lists de-duplicated (blanks included) and store the variants
 * the builder makes. Both answer with a response built from the saved objects in memory;
 * the lemmas here show it equals what reading the product back would give.
 */
module Services {

  import opened Wrappers
  import opened Text
  import opened Lists
  import opened Entities
  import opened Database
  import opened VariantBuilder
  import opened Repositories

  /** A create or update request. The size and colour lists hold no null entries. */
  datatype ProductInput = ProductInput(
    name: string,
    sku: string,
    barcode: Option<string>,
    price: int,
    imageUrl: Option<string>,
    categoryId: Option<int>,
    sizes: seq<string>,
    colors: seq<string>,
    variantBarcodes: seq<VariantBarcode>)

  /** A variant in a response. */
  datatype VariantDto = VariantDto(
    id: int,
    size: Option<string>,
    color: Option<string>,
    sku: string,
    barcode: Option<string>,
    stock: int,
    priceAdjustment: Option<int>)

  /** A product in a response. */
  datatype ProductDto = ProductDto(
    id: int,
    name: string,
    sku: string,
    barcode: Option<string>,
    price: int,
    imageUrl: Option<string>,
    categoryId: Option<int>,
    categoryName: Option<string>,
    sizes: seq<string>,
    colors: seq<string>,
    variants: seq<VariantDto>,
    createdAt: int)

  /** The exceptions the service throws: a taken SKU, a missing product, a refused save. */
  datatype ServiceError = SkuConflict(sku: string) | NotFound(id: int) | StorageFailure(cause: StoreError)

  // ---------------------------------------------------------------------------
  // Mapping
  // ---------------------------------------------------------------------------

  function ToVariantDto(v: ProductVariant): VariantDto {
    VariantDto(v.id, v.size, v.color, v.sku, v.barcode, v.stock, v.priceAdjustment)
  }

  /** `ToDto`: the product's columns, its category's name, and its children in order. */
  function ToDto(lp: LoadedProduct): ProductDto {
    var p := lp.product;
    ProductDto(p.id, p.name, p.sku, p.barcode, p.price, p.imageUrl, p.categoryId,
      if lp.category.Some? then Some(lp.category.value.name) else None,
      seq(|lp.sizes|, i requires 0 <= i < |lp.sizes| => lp.sizes[i].size),
      seq(|lp.colors|, i requires 0 <= i < |lp.colors| => lp.colors[i].color),
      seq(|lp.variants|, i requires 0 <= i < |lp.variants| => ToVariantDto(lp.variants[i])),
      p.createdAt)
  }

  /** `GetProductsAsync(search)`. */
  function GetProducts(db: Db, search: Option<string>): seq<ProductDto> {
    var lps := GetProductsWithDetails(db, search);
    seq(|lps|, i requires 0 <= i < |lps| => ToDto(lps[i]))
  }

  /** `GetProductByIdAsync(id)`. */
  function GetProductById(db: Db, id: int): Option<ProductDto> {
    match GetProductWithDetails(db, id)
    case None => None
    case Some(lp) => Some(ToDto(lp))
  }

  /** The listing is newest first; a blank or absent search answers with the response of every product, one each. */
  lemma GetProductsSpec(db: Db, search: Option<string>)
    ensures var r := GetProducts(db, search);
      forall i, j :: 0 <= i < j < |r| ==> r[i].createdAt >= r[j].createdAt
    ensures var r, all := GetProducts(db, search), AllDetails(db);
      IsNullOrWhiteSpace(search) ==>
        && |r| == |db.products|
        && (forall i :: 0 <= i < |r| ==> (exists k :: 0 <= k < |all| && r[i] == ToDto(all[k])))
        && (forall k :: 0 <= k < |all| ==> ToDto(all[k]) in r)
  {
    GetProductsWithDetailsSpec(db, search);
    var lps := GetProductsWithDetails(db, search);
    var r, all := GetProducts(db, search), AllDetails(db);
    assert |lps| == |multiset(lps)|;
    assert |all| == |multiset(all)|;
    if IsNullOrWhiteSpace(search) {
      forall i | 0 <= i < |r| ensures exists k :: 0 <= k < |all| && r[i] == ToDto(all[k]) {
        assert lps[i] in multiset(all);
        var k :| 0 <= k < |all| && all[k] == lps[i];
      }
      forall k | 0 <= k < |all| ensures ToDto(all[k]) in r {
        assert all[k] in multiset(lps);
        var i :| 0 <= i < |lps| && lps[i] == all[k];
        assert r[i] == ToDto(all[k]);
      }
    }
  }

  /**
   * Any other search answers with the responses of exactly the products whose name, SKU
   * or category name contains the trimmed, lower-cased term.
   */
  lemma GetProductsMatches(db: Db, search: Option<string>)
    requires !IsNullOrWhiteSpace(search)
    ensures var r, all, t := GetProducts(db, search), AllDetails(db), SearchTerm(search.value);
      && (forall i :: 0 <= i < |r| ==> (exists k :: 0 <= k < |all| && r[i] == ToDto(all[k]) && MatchesSearch(all[k], t)))
      && (forall k :: 0 <= k < |all| && MatchesSearch(all[k], t) ==> ToDto(all[k]) in r)
  {
    var lps := GetProductsWithDetails(db, search);
    var r, all, t := GetProducts(db, search), AllDetails(db), SearchTerm(search.value);
    GetProductsWithDetailsMatches(db, search);
    forall i | 0 <= i < |r| ensures exists k :: 0 <= k < |all| && r[i] == ToDto(all[k]) && MatchesSearch(all[k], t) {
      var k :| 0 <= k < |all| && all[k] == lps[i];
    }
    forall k | 0 <= k < |all| && MatchesSearch(all[k], t) ensures ToDto(all[k]) in r {
      var i :| 0 <= i < |lps| && lps[i] == all[k];
      assert r[i] == ToDto(all[k]);
    }
  }

  /** A response by id exists exactly when the product does, and carries that id. */
  lemma GetProductByIdSpec(db: Db, id: int)
    ensures GetProductById(db, id).Some? <==> HasProduct(db.products, id)
    ensures GetProductById(db, id).Some? ==> GetProductById(db, id).value.id == id
  {
    GetProductWithDetailsSpec(db, id);
  }

  // ---------------------------------------------------------------------------
  // The objects the service saves
  // ---------------------------------------------------------------------------

  /** The size rows of a request: `Distinct()` of the list, blanks kept. */
  function SizeRows(sizes: seq<string>, productId: int): seq<ProductSize> {
    var d := Distinct(sizes);
    seq(|d|, i requires 0 <= i < |d| => ProductSize(0, productId, d[i]))
  }

  /** The colour rows of a request: `Distinct()` of the list, blanks kept. */
  function ColorRows(colors: seq<string>, productId: int): seq<ProductColor> {
    var d := Distinct(colors);
    seq(|d|, i requires 0 <= i < |d| => ProductColor(0, productId, d[i]))
  }

  /** The product row a request describes, with the given key and times. */
  function RequestRow(input: ProductInput, id: int, createdAt: int, updatedAt: Option<int>): Product {
    Product(id, input.name, Upper(input.sku), input.barcode, input.price, input.imageUrl, input.categoryId, createdAt, updatedAt)
  }

  /** The new product `CreateProductAsync` hands to the repository. */
  function NewProduct(db: Db, input: ProductInput, now: int): LoadedProduct {
    RequestRows(db, input, RequestRow(input, 0, now, None), 0)
  }

  /** The loaded product as `UpdateProductAsync` rewrites it: key and creation time kept. */
  function EditedProduct(db: Db, loaded: Product, input: ProductInput, now: int): LoadedProduct {
    RequestRows(db, input, RequestRow(input, loaded.id, loaded.createdAt, Some(now)), loaded.id)
  }

  /** The rows a request saves, before numbering: `sizesOwner` is the key its tag rows carry. */
  function RequestRows(db: Db, input: ProductInput, p: Product, sizesOwner: int): LoadedProduct {
    LoadedProduct(p, CategoryOf(db, input.categoryId), SizeRows(input.sizes, sizesOwner), ColorRows(input.colors, sizesOwner),
                  Variants(input.sku, input.sizes, input.colors, input.variantBarcodes))
  }

  /**
   * What a saved request reads back as: the tags de-duplicated in first-occurrence order
   * with blanks kept, and the name of the category the request points at, if it exists.
   */
  lemma SavedTags(db: Db, input: ProductInput, p: Product, sizesOwner: int, productId: int, first: int)
    ensures var d := ToDto(NumberChildren(RequestRows(db, input, p, sizesOwner), productId, first));
      && d.id == p.id && d.sku == p.sku && d.name == p.name && d.categoryId == p.categoryId
      && d.sizes == Distinct(input.sizes) && d.colors == Distinct(input.colors)
      && (d.categoryName.Some? <==> input.categoryId.Some? && HasCategory(db.categories, input.categoryId.value))
  {
    var d := ToDto(NumberChildren(RequestRows(db, input, p, sizesOwner), productId, first));
    assert d.sizes == Distinct(input.sizes);
    assert d.colors == Distinct(input.colors);
    if input.categoryId.Some? {
      FindCategorySpec(db.categories, input.categoryId.value);
    }
  }

  /** The saved variants are the builder's, in order, with their SKUs and barcodes and no stock. */
  lemma SavedVariants(db: Db, input: ProductInput, p: Product, sizesOwner: int, productId: int, first: int)
    ensures var d := ToDto(NumberChildren(RequestRows(db, input, p, sizesOwner), productId, first));
      var vs := Variants(input.sku, input.sizes, input.colors, input.variantBarcodes);
      && |d.variants| == |vs|
      && (forall i :: 0 <= i < |d.variants| ==>
            && d.variants[i].sku == VariantSku(input.sku, vs[i].size, vs[i].color)
            && d.variants[i].barcode == FindBarcode(input.variantBarcodes, vs[i].size, vs[i].color)
            && d.variants[i].size == vs[i].size && d.variants[i].color == vs[i].color
            && d.variants[i].stock == 0 && d.variants[i].priceAdjustment.None?)
  {
    VariantsFresh(input.sku, Combos(Tags(input.sizes), Tags(input.colors)), input.variantBarcodes);
  }

  /** The SKU check of the service is the unique index's condition on the stored, upper-cased SKU. */
  lemma SkuCheckIsIndex(products: seq<Product>, sku: string, excludeId: Option<int>)
    ensures !SkuExists(products, sku, excludeId) <==> SkuFree(products, Upper(sku), excludeId)
  {
    SkuExistsSpec(products, sku, excludeId);
  }

  /** After a create, the new key reads back as the response and every other key as before. */
  lemma CreateReadsBack(db: Db, e: LoadedProduct, first: int)
    requires Consistent(db, first) && Constraints(Inserted(db, Attached(e, first)))
    requires e.category == CategoryOf(db, e.product.categoryId)
    ensures var c := Inserted(db, Attached(e, first));
      && GetProductById(c, first) == Some(ToDto(Attached(e, first)))
      && (forall id :: id != first ==> GetProductById(c, id) == GetProductById(db, id))
  {
    AddThenGet(db, e, first);
    forall id | id != first
      ensures GetProductById(Inserted(db, Attached(e, first)), id) == GetProductById(db, id)
    {
      AddKeepsOthers(db, e, first, id);
    }
  }

  /** After an update, its key reads back as the response and every other key as before. */
  lemma UpdateReadsBack(db: Db, e: LoadedProduct, first: int)
    requires UniqueBy(db.products, ProductKey) && HasProduct(db.products, e.product.id)
    requires e.category == CategoryOf(db, e.product.categoryId)
    ensures var id := e.product.id;
      var c := Replaced(WithoutChildren(db, id), NumberChildren(e, id, first));
      && GetProductById(c, id) == Some(ToDto(NumberChildren(e, id, first)))
      && (forall other :: other != id ==> GetProductById(c, other) == GetProductById(db, other))
  {
    var id := e.product.id;
    UpdateThenGet(db, e, first);
    forall other | other != id
      ensures GetProductById(Replaced(WithoutChildren(db, id), NumberChildren(e, id, first)), other) == GetProductById(db, other)
    {
      UpdateKeepsOthers(db, e, first, other);
    }
  }

  // ---------------------------------------------------------------------------
  // The service
  // ---------------------------------------------------------------------------

  /** The product service over a repository. */
  class ProductService {
    const repo: ProductRepository

    constructor(repo: ProductRepository)
      ensures this.repo == repo
    {
      this.repo := repo;
    }

    predicate Valid()
      reads this, repo, repo.store
    {
      repo.Valid()
    }

    /**
     * `CreateProductAsync`. A taken SKU is refused before anything is written. Otherwise
     * the save succeeds exactly when the rows fit their columns and the category reference
     * resolves; the response is the saved product, the one a read by the new key returns,
     * and no other product reads differently.
     */
    method CreateProduct(input: ProductInput, now: int) returns (r: Result<ProductDto, ServiceError>)
      requires Valid()
      modifies repo.store
      ensures Valid()
      ensures SkuExists(old(repo.store.products), input.sku, None) ==>
        r == Failure(SkuConflict(input.sku)) && repo.store.Contents() == old(repo.store.Contents())
        && repo.store.nextId == old(repo.store.nextId)
      ensures !SkuExists(old(repo.store.products), input.sku, None) ==>
        var db := old(repo.store.Contents());
        var e := NewProduct(db, input, now);
        var a := Attached(e, old(repo.store.nextId));
        && repo.store.nextId == old(repo.store.nextId) + 1 + ChildCount(e)
        && (r.Success? <==> RowsOfFit(e) && CategoryResolves(db, input.categoryId))
        && (r.Success? ==> r.value == ToDto(a) && repo.store.Contents() == Inserted(db, a))
        && (r.Failure? ==> r.error == StorageFailure(ConstraintViolation) && repo.store.Contents() == db)
      ensures r.Success? ==>
        && GetProductById(repo.store.Contents(), r.value.id) == Some(r.value)
        && (forall id :: id != r.value.id ==>
              GetProductById(repo.store.Contents(), id) == GetProductById(old(repo.store.Contents()), id))
    {
      if SkuExists(repo.store.products, input.sku, None) {
        r := Failure(SkuConflict(input.sku));
        return;
      }
      ghost var db := repo.store.Contents();
      ghost var first := repo.store.nextId;
      var category := CategoryOf(repo.store.Contents(), input.categoryId);
      var variants := BuildVariants(input.sku, input.sizes, input.colors, input.variantBarcodes);
      var e := LoadedProduct(RequestRow(input, 0, now, None), category,
                             SizeRows(input.sizes, 0), ColorRows(input.colors, 0), variants);
      assert e == NewProduct(db, input, now);
      SkuCheckIsIndex(db.products, input.sku, None);
      InsertedConstraints(db, e, first);
      var created := repo.Add(e);
      if created.Failure? {
        r := Failure(StorageFailure(created.error));
        return;
      }
      CreateReadsBack(db, e, first);
      r := Success(ToDto(created.value));
    }

    /**
     * `UpdateProductAsync`. A missing product is refused first, then a SKU another product
     * has; both leave the store as it was. Otherwise the product's old children are
     * deleted, and the save of the rewritten row with the new children succeeds exactly
     * when the rows fit and the category resolves. When it fails, the old children stay
     * deleted. On success the response is what a read by the key returns, and no other
     * product reads differently.
     */
    method UpdateProduct(id: int, input: ProductInput, now: int) returns (r: Result<ProductDto, ServiceError>)
      requires Valid()
      modifies repo.store
      ensures Valid()
      ensures FindProduct(old(repo.store.products), id).None? ==>
        r == Failure(NotFound(id)) && repo.store.Contents() == old(repo.store.Contents())
        && repo.store.nextId == old(repo.store.nextId)
      ensures FindProduct(old(repo.store.products), id).Some? && SkuExists(old(repo.store.products), input.sku, Some(id)) ==>
        r == Failure(SkuConflict(input.sku)) && repo.store.Contents() == old(repo.store.Contents())
        && repo.store.nextId == old(repo.store.nextId)
      ensures FindProduct(old(repo.store.products), id).Some? && !SkuExists(old(repo.store.products), input.sku, Some(id)) ==>
        var db := old(repo.store.Contents());
        var e := EditedProduct(db, FindProduct(db.products, id).value, input, now);
        var a := NumberChildren(e, id, old(repo.store.nextId));
        && repo.store.nextId == old(repo.store.nextId) + ChildCount(e)
        && (r.Success? <==> RowsOfFit(e) && CategoryResolves(db, input.categoryId))
        && (r.Success? ==> r.value == ToDto(a) && repo.store.Contents() == Replaced(WithoutChildren(db, id), a))
        && (r.Failure? ==> r.error == StorageFailure(ConstraintViolation)
                           && repo.store.Contents() == WithoutChildren(db, id))
      ensures r.Success? ==>
        && r.value.id == id
        && GetProductById(repo.store.Contents(), id) == Some(r.value)
        && (forall other :: other != id ==>
              GetProductById(repo.store.Contents(), other) == GetProductById(old(repo.store.Contents()), other))
    {
      var found := GetProductWithDetails(repo.store.Contents(), id);
      if found.None? {
        r := Failure(NotFound(id));
        return;
      }
      if SkuExists(repo.store.products, input.sku, Some(id)) {
        r := Failure(SkuConflict(input.sku));
        return;
      }
      FindProductSpec(repo.store.products, id);
      r := SaveEdited(found.value.product, input, now);
    }

    /**
     * The second half of `UpdateProductAsync`, once the product is found and its SKU is
     * free: the loaded row rewritten from the request, saved with the new children.
     */
    method SaveEdited(loaded: Product, input: ProductInput, now: int) returns (r: Result<ProductDto, ServiceError>)
      requires Valid()
      requires FindProduct(repo.store.products, loaded.id) == Some(loaded)
      requires !SkuExists(repo.store.products, input.sku, Some(loaded.id))
      modifies repo.store
      ensures Valid()
      ensures var db := old(repo.store.Contents());
        var e := EditedProduct(db, loaded, input, now);
        var a := NumberChildren(e, loaded.id, old(repo.store.nextId));
        && repo.store.nextId == old(repo.store.nextId) + ChildCount(e)
        && (r.Success? <==> RowsOfFit(e) && CategoryResolves(db, input.categoryId))
        && (r.Success? ==> r.value == ToDto(a) && repo.store.Contents() == Replaced(WithoutChildren(db, loaded.id), a))
        && (r.Failure? ==> r.error == StorageFailure(ConstraintViolation)
                           && repo.store.Contents() == WithoutChildren(db, loaded.id))
      ensures r.Success? ==>
        && r.value.id == loaded.id
        && GetProductById(repo.store.Contents(), loaded.id) == Some(r.value)
        && (forall other :: other != loaded.id ==>
              GetProductById(repo.store.Contents(), other) == GetProductById(old(repo.store.Contents()), other))
    {
      ghost var db := repo.store.Contents();
      ghost var first := repo.store.nextId;
      FindProductSpec(db.products, loaded.id);
      var category := CategoryOf(repo.store.Contents(), input.categoryId);
      var variants := BuildVariants(input.sku, input.sizes, input.colors, input.variantBarcodes);
      var e := LoadedProduct(RequestRow(input, loaded.id, loaded.createdAt, Some(now)), category,
                             SizeRows(input.sizes, loaded.id), ColorRows(input.colors, loaded.id), variants);
      assert e == EditedProduct(db, loaded, input, now);
      SkuCheckIsIndex(db.products, input.sku, Some(loaded.id));
      UpdatedConstraints(db, e, first);
      var saved := repo.Update(e);
      if saved.Failure? {
        r := Failure(StorageFailure(saved.error));
        return;
      }
      UpdateReadsBack(db, e, first);
      r := Success(ToDto(saved.value));
    }

    /**
     * `DeleteProductAsync`. A missing product is refused and nothing changes; otherwise the
     * product goes with its children, and no read by its key finds it any more.
     */
    method DeleteProduct(id: int) returns (r: Result<int, ServiceError>)
      requires Valid()
      modifies repo.store
      ensures Valid()
      ensures repo.store.nextId == old(repo.store.nextId)
      ensures !HasProduct(old(repo.store.products), id) ==>
        r == Failure(NotFound(id)) && repo.store.Contents() == old(repo.store.Contents())
      ensures HasProduct(old(repo.store.products), id) ==>
        r == Success(id) && repo.store.Contents() == CascadeDelete(old(repo.store.Contents()), id)
        && GetProductById(repo.store.Contents(), id).None?
    {
      var found := FindProduct(repo.store.products, id);
      FindProductSpec(repo.store.products, id);
      if found.None? {
        r := Failure(NotFound(id));
        return;
      }
      ghost var db := repo.store.Contents();
      var deleted := repo.Delete(found.value);
      CascadeDeleteKeepsConstraints(db, id);
      GetProductByIdSpec(repo.store.Contents(), id);
      r := Success(id);
    }
  }

  // ---------------------------------------------------------------------------
  // Consequences
  // ---------------------------------------------------------------------------

  /**
   * The schema's 150-character limit on variant SKUs is below what the request limits
   * allow: a 100-character SKU with a 25-character size and colour builds a variant SKU
   * of 152 characters, so the save of such a product is refused.
   */
  lemma LongVariantSkuIsRefused(baseSku: string, size: string, color: string, barcodes: seq<VariantBarcode>)
    requires |baseSku| == MaxSku && |size| == 25 && |color| == 25
    requires !IsBlank(DotNet, baseSku) && !IsBlank(DotNet, size) && !IsBlank(DotNet, color)
    ensures !VariantFits(NewVariant(baseSku, Some(size), Some(color), barcodes))
  {
    VariantSkuLength(baseSku, size, color);
  }
}
