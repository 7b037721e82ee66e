/**
 * The product repository (ProductRepository.cs and the generic Repository.cs it
 * extends): queries over the tables, and the writes that add a product with its
 * children, update a product by replacing its children, and delete a product.
 *
 * Queries are functions of the table contents. Writes go through the store: rows
 * get identity values from its counter, and `SaveChanges` commits them only when
 * the schema holds. The child replacement of `UpdateAsync` is not atomic: the old
 * children are deleted at once, before the save that may fail.
 */
module Repositories {

  import opened Wrappers
  import opened Text
  import opened Lists
  import opened Entities
  import opened Database

  /** Why the store refused a write: a schema violation, or a row that is not there (no row affected). */
  datatype StoreError = ConstraintViolation | RowMissing

  // ---------------------------------------------------------------------------
  // Lookups
  // ---------------------------------------------------------------------------

  /** `FirstOrDefault(p => p.Id == id)` over the product rows. */
  function FindProduct(products: seq<Product>, id: int): Option<Product>
    decreases |products|
  {
    if products == [] then None
    else if products[0].id == id then Some(products[0])
    else FindProduct(products[1..], id)
  }

  /** The category row with that key, as `FindAsync` or a navigation load returns it. */
  function FindCategory(categories: seq<Category>, id: int): Option<Category>
    decreases |categories|
  {
    if categories == [] then None
    else if categories[0].id == id then Some(categories[0])
    else FindCategory(categories[1..], id)
  }

  /** A lookup by key finds the row with that key exactly when there is one. */
  lemma {:induction false} FindProductSpec(products: seq<Product>, id: int)
    ensures FindProduct(products, id).Some? <==> HasProduct(products, id)
    ensures FindProduct(products, id).Some? ==>
      FindProduct(products, id).value.id == id && FindProduct(products, id).value in products
    decreases |products|
  {
    if products != [] && products[0].id != id {
      var tail := products[1..];
      FindProductSpec(tail, id);
      if HasProduct(products, id) {
        var k :| 0 <= k < |products| && products[k].id == id;
        assert tail[k - 1].id == id;
      }
      if HasProduct(tail, id) {
        var k :| 0 <= k < |tail| && tail[k].id == id;
        assert products[k + 1].id == id;
      }
    }
  }

  /** With unique keys the lookup returns the one row that has the key. */
  lemma {:induction false} FindProductUnique(products: seq<Product>, k: nat)
    requires k < |products| && UniqueBy(products, ProductKey)
    ensures FindProduct(products, products[k].id) == Some(products[k])
    decreases k
  {
    if k > 0 {
      assert products[0].id != products[k].id by { assert ProductKey(products[0]) != ProductKey(products[k]); }
      var tail := products[1..];
      assert UniqueBy(tail, ProductKey) by {
        forall i, j | 0 <= i < j < |tail| ensures ProductKey(tail[i]) != ProductKey(tail[j]) {
          assert tail[i] == products[i + 1] && tail[j] == products[j + 1];
        }
      }
      FindProductUnique(tail, k - 1);
    }
  }

  /** A category lookup finds a row with that key exactly when there is one. */
  lemma {:induction false} FindCategorySpec(categories: seq<Category>, id: int)
    ensures FindCategory(categories, id).Some? <==> HasCategory(categories, id)
    ensures FindCategory(categories, id).Some? ==>
      FindCategory(categories, id).value.id == id && FindCategory(categories, id).value in categories
    decreases |categories|
  {
    if categories != [] && categories[0].id != id {
      var tail := categories[1..];
      FindCategorySpec(tail, id);
      if HasCategory(categories, id) {
        var k :| 0 <= k < |categories| && categories[k].id == id;
        assert tail[k - 1].id == id;
      }
      if HasCategory(tail, id) {
        var k :| 0 <= k < |tail| && tail[k].id == id;
        assert categories[k + 1].id == id;
      }
    }
  }

  // ---------------------------------------------------------------------------
  // Loading a product with its details
  // ---------------------------------------------------------------------------

  /** The row tests of the child loads, one per table. */
  function SizeOf(productId: int): ProductSize -> bool { (s: ProductSize) => s.productId == productId }
  function ColorOf(productId: int): ProductColor -> bool { (c: ProductColor) => c.productId == productId }
  function VariantOf(productId: int): ProductVariant -> bool { (v: ProductVariant) => v.productId == productId }

  /** The category a nullable foreign key points at. */
  function CategoryOf(db: Db, categoryId: Option<int>): Option<Category> {
    if categoryId.Some? then FindCategory(db.categories, categoryId.value) else None
  }

  /** `WithDetails()`: a product row with its category and its children, in storage order. */
  function Details(db: Db, p: Product): LoadedProduct {
    LoadedProduct(p, CategoryOf(db, p.categoryId),
      Filter(db.sizes, SizeOf(p.id)), Filter(db.colors, ColorOf(p.id)), Filter(db.variants, VariantOf(p.id)))
  }

  /** `GetProductWithDetailsAsync`: the product with that key and its details, or nothing. */
  function GetProductWithDetails(db: Db, id: int): Option<LoadedProduct> {
    match FindProduct(db.products, id)
    case None => None
    case Some(p) => Some(Details(db, p))
  }

  /** Every product with its details, in storage order. */
  function AllDetails(db: Db): seq<LoadedProduct> {
    seq(|db.products|, i requires 0 <= i < |db.products| => Details(db, db.products[i]))
  }

  /** The loaded product is the one asked for, with exactly the children that point at it. */
  lemma GetProductWithDetailsSpec(db: Db, id: int)
    ensures GetProductWithDetails(db, id).Some? <==> HasProduct(db.products, id)
    ensures var r := GetProductWithDetails(db, id);
      r.Some? ==>
        && r.value.product.id == id && r.value.product in db.products
        && (forall i :: 0 <= i < |r.value.sizes| ==> r.value.sizes[i] in db.sizes && r.value.sizes[i].productId == id)
        && (forall i :: 0 <= i < |db.sizes| && db.sizes[i].productId == id ==> db.sizes[i] in r.value.sizes)
        && (forall i :: 0 <= i < |r.value.colors| ==> r.value.colors[i] in db.colors && r.value.colors[i].productId == id)
        && (forall i :: 0 <= i < |db.colors| && db.colors[i].productId == id ==> db.colors[i] in r.value.colors)
        && (forall i :: 0 <= i < |r.value.variants| ==> r.value.variants[i] in db.variants && r.value.variants[i].productId == id)
        && (forall i :: 0 <= i < |db.variants| && db.variants[i].productId == id ==> db.variants[i] in r.value.variants)
  {
    FindProductSpec(db.products, id);
    var r := GetProductWithDetails(db, id);
    if r.Some? {
      forall i | 0 <= i < |db.sizes| && db.sizes[i].productId == id ensures db.sizes[i] in r.value.sizes {
        assert SizeOf(id)(db.sizes[i]);
      }
      forall i | 0 <= i < |db.colors| && db.colors[i].productId == id ensures db.colors[i] in r.value.colors {
        assert ColorOf(id)(db.colors[i]);
      }
      forall i | 0 <= i < |db.variants| && db.variants[i].productId == id ensures db.variants[i] in r.value.variants {
        assert VariantOf(id)(db.variants[i]);
      }
    }
  }

  // ---------------------------------------------------------------------------
  // The SKU check
  // ---------------------------------------------------------------------------

  /** The SKU test of `SkuExistsAsync` for one row. */
  predicate SkuHit(p: Product, sku: string, excludeId: Option<int>) {
    p.sku == Upper(sku) && (excludeId.None? || p.id != excludeId.value)
  }

  /** `SkuExistsAsync(sku, excludeId)`: `Any` over the rows, scanning from the first. */
  function SkuExists(products: seq<Product>, sku: string, excludeId: Option<int>): bool
    decreases |products|
  {
    products != [] && (SkuHit(products[0], sku, excludeId) || SkuExists(products[1..], sku, excludeId))
  }

  /** Some row has the upper-cased SKU and, when an id is excluded, another key. */
  lemma {:induction false} SkuExistsSpec(products: seq<Product>, sku: string, excludeId: Option<int>)
    ensures SkuExists(products, sku, excludeId) <==>
      exists i :: 0 <= i < |products| && SkuHit(products[i], sku, excludeId)
    decreases |products|
  {
    if products != [] {
      var tail := products[1..];
      SkuExistsSpec(tail, sku, excludeId);
      if exists i :: 0 <= i < |products| && SkuHit(products[i], sku, excludeId) {
        var k :| 0 <= k < |products| && SkuHit(products[k], sku, excludeId);
        if k > 0 {
          assert SkuHit(tail[k - 1], sku, excludeId);
        }
      }
      if exists i :: 0 <= i < |tail| && SkuHit(tail[i], sku, excludeId) {
        var k :| 0 <= k < |tail| && SkuHit(tail[k], sku, excludeId);
        assert SkuHit(products[k + 1], sku, excludeId);
      }
    }
  }

  // ---------------------------------------------------------------------------
  // The search
  // ---------------------------------------------------------------------------

  /** The search term as the query uses it: trimmed and lower-cased. */
  function SearchTerm(search: string): string {
    Lower(Trim(DotNet, search))
  }

  /** The term occurs in the lower-cased name, SKU or category name. */
  predicate MatchesSearch(lp: LoadedProduct, term: string) {
    Contains(Lower(lp.product.name), term) || Contains(Lower(lp.product.sku), term)
    || (lp.category.Some? && Contains(Lower(lp.category.value.name), term))
  }

  function MatchesTerm(term: string): LoadedProduct -> bool { (lp: LoadedProduct) => MatchesSearch(lp, term) }

  /** Newest first. */
  predicate SortedByCreatedDesc(xs: seq<LoadedProduct>) {
    forall i, j :: 0 <= i < j < |xs| ==> xs[i].product.createdAt >= xs[j].product.createdAt
  }

  /** Places `x` before the first entry created no later than it. */
  function InsertByCreated(x: LoadedProduct, xs: seq<LoadedProduct>): seq<LoadedProduct>
    decreases |xs|
  {
    if xs == [] || x.product.createdAt >= xs[0].product.createdAt then [x] + xs
    else [xs[0]] + InsertByCreated(x, xs[1..])
  }

  /** `OrderByDescending(p => p.CreatedAt)`, as an insertion sort that keeps equal keys in order. */
  function SortByCreatedDesc(xs: seq<LoadedProduct>): seq<LoadedProduct>
    decreases |xs|
  {
    if xs == [] then [] else InsertByCreated(xs[0], SortByCreatedDesc(xs[1..]))
  }

  /** A sorted sequence stays sorted without its head. */
  lemma SortedTail(xs: seq<LoadedProduct>)
    requires xs != [] && SortedByCreatedDesc(xs)
    ensures SortedByCreatedDesc(xs[1..])
  {
    var tail := xs[1..];
    forall i, j | 0 <= i < j < |tail| ensures tail[i].product.createdAt >= tail[j].product.createdAt {
      assert tail[i] == xs[i + 1] && tail[j] == xs[j + 1];
    }
  }

  /** A head created no earlier than every entry keeps a sorted sequence sorted. */
  lemma SortedCons(h: LoadedProduct, r: seq<LoadedProduct>)
    requires SortedByCreatedDesc(r)
    requires forall k :: 0 <= k < |r| ==> h.product.createdAt >= r[k].product.createdAt
    ensures SortedByCreatedDesc([h] + r)
  {
    var s := [h] + r;
    forall i, j | 0 <= i < j < |s| ensures s[i].product.createdAt >= s[j].product.createdAt {
      assert s[j] == r[j - 1];
      if i > 0 {
        assert s[i] == r[i - 1];
      }
    }
  }

  /** Inserting keeps the order and adds exactly the one entry. */
  lemma {:induction false} InsertByCreatedSpec(x: LoadedProduct, xs: seq<LoadedProduct>)
    requires SortedByCreatedDesc(xs)
    ensures SortedByCreatedDesc(InsertByCreated(x, xs))
    ensures multiset(InsertByCreated(x, xs)) == multiset(xs) + multiset{x}
    decreases |xs|
  {
    if xs != [] && x.product.createdAt < xs[0].product.createdAt {
      var tail := xs[1..];
      SortedTail(xs);
      InsertByCreatedSpec(x, tail);
      var r := InsertByCreated(x, tail);
      forall k | 0 <= k < |r| ensures xs[0].product.createdAt >= r[k].product.createdAt {
        assert r[k] in multiset(r);
        if r[k] != x {
          assert r[k] in multiset(tail);
          var m :| 0 <= m < |tail| && tail[m] == r[k];
          assert xs[m + 1] == r[k];
        }
      }
      SortedCons(xs[0], r);
      assert xs == [xs[0]] + tail;
    }
  }

  /** The search order: newest first, and the same entries. */
  lemma {:induction false} SortByCreatedDescSpec(xs: seq<LoadedProduct>)
    ensures SortedByCreatedDesc(SortByCreatedDesc(xs))
    ensures multiset(SortByCreatedDesc(xs)) == multiset(xs)
    decreases |xs|
  {
    if xs != [] {
      SortByCreatedDescSpec(xs[1..]);
      InsertByCreatedSpec(xs[0], SortByCreatedDesc(xs[1..]));
      assert xs == [xs[0]] + xs[1..];
    }
  }

  /** The rows the search keeps, before ordering: all of them for a blank or absent search. */
  function SearchRows(db: Db, search: Option<string>): seq<LoadedProduct> {
    if IsNullOrWhiteSpace(search) then AllDetails(db) else Filter(AllDetails(db), MatchesTerm(SearchTerm(search.value)))
  }

  /** `GetProductsWithDetailsAsync(search)`. */
  function GetProductsWithDetails(db: Db, search: Option<string>): seq<LoadedProduct> {
    SortByCreatedDesc(SearchRows(db, search))
  }

  /** The listing is newest first, and a blank or absent search lists every product. */
  lemma GetProductsWithDetailsSpec(db: Db, search: Option<string>)
    ensures SortedByCreatedDesc(GetProductsWithDetails(db, search))
    ensures multiset(GetProductsWithDetails(db, search)) == multiset(SearchRows(db, search))
    ensures IsNullOrWhiteSpace(search) ==> multiset(GetProductsWithDetails(db, search)) == multiset(AllDetails(db))
  {
    SortByCreatedDescSpec(SearchRows(db, search));
  }

  /** Any other search lists exactly the products whose name, SKU or category name contains the term. */
  lemma GetProductsWithDetailsMatches(db: Db, search: Option<string>)
    requires !IsNullOrWhiteSpace(search)
    ensures var r := GetProductsWithDetails(db, search);
      && (forall i :: 0 <= i < |r| ==> r[i] in AllDetails(db) && MatchesSearch(r[i], SearchTerm(search.value)))
      && (forall i :: 0 <= i < |db.products| && MatchesSearch(AllDetails(db)[i], SearchTerm(search.value))
            ==> AllDetails(db)[i] in r)
  {
    var all := AllDetails(db);
    var t := SearchTerm(search.value);
    var chosen := SearchRows(db, search);
    var r := GetProductsWithDetails(db, search);
    GetProductsWithDetailsSpec(db, search);
    forall i | 0 <= i < |r| ensures r[i] in all && MatchesSearch(r[i], t) {
      assert r[i] in multiset(r);
      assert r[i] in multiset(chosen);
      var k :| 0 <= k < |chosen| && chosen[k] == r[i];
      assert MatchesTerm(t)(chosen[k]);
    }
    forall i | 0 <= i < |db.products| && MatchesSearch(all[i], t) ensures all[i] in r {
      assert MatchesTerm(t)(all[i]);
      assert all[i] in multiset(chosen);
    }
  }

  // ---------------------------------------------------------------------------
  // Rows to insert
  // ---------------------------------------------------------------------------

  /** Size rows of `productId` with keys `first`, `first + 1`, ... in order. */
  function AttachSizes(rows: seq<ProductSize>, productId: int, first: int): seq<ProductSize> {
    seq(|rows|, i requires 0 <= i < |rows| => rows[i].(id := first + i, productId := productId))
  }

  function AttachColors(rows: seq<ProductColor>, productId: int, first: int): seq<ProductColor> {
    seq(|rows|, i requires 0 <= i < |rows| => rows[i].(id := first + i, productId := productId))
  }

  function AttachVariants(rows: seq<ProductVariant>, productId: int, first: int): seq<ProductVariant> {
    seq(|rows|, i requires 0 <= i < |rows| => rows[i].(id := first + i, productId := productId))
  }

  /** How many child rows an object carries. */
  function ChildCount(e: LoadedProduct): nat {
    |e.sizes| + |e.colors| + |e.variants|
  }

  /** The children attached to `productId`, keyed from `first`: sizes, then colours, then variants. */
  function NumberChildren(e: LoadedProduct, productId: int, first: int): LoadedProduct {
    e.(sizes := AttachSizes(e.sizes, productId, first),
       colors := AttachColors(e.colors, productId, first + |e.sizes|),
       variants := AttachVariants(e.variants, productId, first + |e.sizes| + |e.colors|))
  }

  /** A new product as `AddAsync` saves it: the row keyed `first`, its children after it. */
  function Attached(e: LoadedProduct, first: int): LoadedProduct {
    NumberChildren(e.(product := e.product.(id := first)), first, first + 1)
  }

  /** The tables with a new product and its children appended. */
  function Inserted(db: Db, a: LoadedProduct): Db {
    Db(db.categories, db.products + [a.product], db.sizes + a.sizes, db.colors + a.colors, db.variants + a.variants)
  }

  /** The product row with the key of `p` overwritten by `p`, every column. */
  function ReplaceRow(products: seq<Product>, p: Product): seq<Product> {
    seq(|products|, i requires 0 <= i < |products| => if products[i].id == p.id then p else products[i])
  }

  /** The tables after the update's save: the row overwritten, the new children appended. */
  function Replaced(db: Db, a: LoadedProduct): Db {
    Db(db.categories, ReplaceRow(db.products, a.product), db.sizes + a.sizes, db.colors + a.colors, db.variants + a.variants)
  }

  /** The snapshot of `UpdateAsync`: one fresh row per child, in order, with every column but the keys. */
  lemma NumberChildrenCopies(e: LoadedProduct, productId: int, first: int)
    ensures var a := NumberChildren(e, productId, first);
      && a.product == e.product && a.category == e.category
      && |a.sizes| == |e.sizes| && |a.colors| == |e.colors| && |a.variants| == |e.variants|
      && (forall i :: 0 <= i < |a.sizes| ==> a.sizes[i].size == e.sizes[i].size)
      && (forall i :: 0 <= i < |a.colors| ==> a.colors[i].color == e.colors[i].color)
      && (forall i :: 0 <= i < |a.variants| ==>
            a.variants[i].(id := 0, productId := 0) == e.variants[i].(id := 0, productId := 0))
      && (forall i :: 0 <= i < |a.sizes| ==> a.sizes[i].productId == productId && first <= a.sizes[i].id < first + ChildCount(e))
      && (forall i :: 0 <= i < |a.colors| ==> a.colors[i].productId == productId && first <= a.colors[i].id < first + ChildCount(e))
      && (forall i :: 0 <= i < |a.variants| ==> a.variants[i].productId == productId && first <= a.variants[i].id < first + ChildCount(e))
  {
  }

  // ---------------------------------------------------------------------------
  // What the schema makes of a new product
  // ---------------------------------------------------------------------------

  /** Every row of the object fits its columns. */
  predicate RowsOfFit(e: LoadedProduct) {
    ProductFits(e.product)
    && (forall i :: 0 <= i < |e.sizes| ==> SizeFits(e.sizes[i]))
    && (forall i :: 0 <= i < |e.colors| ==> ColorFits(e.colors[i]))
    && (forall i :: 0 <= i < |e.variants| ==> VariantFits(e.variants[i]))
  }

  /** No product row other than `productId` (no row at all, for `None`) has the SKU. */
  predicate SkuFree(products: seq<Product>, sku: string, except: Option<int>) {
    forall i :: 0 <= i < |products| && (except.None? || products[i].id != except.value) ==> products[i].sku != sku
  }

  /** A nullable category reference that the category table resolves. */
  predicate CategoryResolves(db: Db, categoryId: Option<int>) {
    categoryId.None? || HasCategory(db.categories, categoryId.value)
  }

  /** Which keys the children of a numbered object take, and whom they point at. */
  predicate ChildrenNumbered(a: LoadedProduct, productId: int, lo: int, hi: int) {
    && (forall i :: 0 <= i < |a.sizes| ==> a.sizes[i].productId == productId && lo <= a.sizes[i].id < hi)
    && (forall i :: 0 <= i < |a.colors| ==> a.colors[i].productId == productId && lo <= a.colors[i].id < hi)
    && (forall i :: 0 <= i < |a.variants| ==> a.variants[i].productId == productId && lo <= a.variants[i].id < hi)
    && UniqueBy(a.sizes, SizeKey) && UniqueBy(a.colors, ColorKey) && UniqueBy(a.variants, VariantKey)
  }

  /** Numbering changes only keys, never whether a row fits. */
  lemma NumberChildrenFits(e: LoadedProduct, productId: int, first: int)
    ensures var a := NumberChildren(e, productId, first);
      && ChildrenNumbered(a, productId, first, first + ChildCount(e))
      && (RowsOfFit(a) <==> RowsOfFit(e))
  {
    var a := NumberChildren(e, productId, first);
    assert forall i :: 0 <= i < |a.sizes| ==> a.sizes[i].id == first + i && SizeFits(a.sizes[i]) == SizeFits(e.sizes[i]);
    assert forall i :: 0 <= i < |a.colors| ==>
      a.colors[i].id == first + |e.sizes| + i && ColorFits(a.colors[i]) == ColorFits(e.colors[i]);
    assert forall i :: 0 <= i < |a.variants| ==>
      a.variants[i].id == first + |e.sizes| + |e.colors| + i && VariantFits(a.variants[i]) == VariantFits(e.variants[i]);
  }

  /** Appending rows with keys from `lo` to a table whose keys are below `lo` keeps keys unique. */
  lemma UniqueAppend<T>(xs: seq<T>, ys: seq<T>, key: T -> int, lo: int)
    requires UniqueBy(xs, key) && UniqueBy(ys, key)
    requires forall i :: 0 <= i < |xs| ==> key(xs[i]) < lo
    requires forall i :: 0 <= i < |ys| ==> lo <= key(ys[i])
    ensures UniqueBy(xs + ys, key)
  {
    var zs := xs + ys;
    forall i, j | 0 <= i < j < |zs| ensures key(zs[i]) != key(zs[j]) {
      if j < |xs| {
        assert zs[i] == xs[i] && zs[j] == xs[j];
      } else if i < |xs| {
        assert zs[i] == xs[i] && zs[j] == ys[j - |xs|];
      } else {
        assert zs[i] == ys[i - |xs|] && zs[j] == ys[j - |xs|];
      }
    }
  }

  /** A new product's rows take keys above every key in use, and the counter moves past them. */
  lemma InsertedIdsBelow(db: Db, e: LoadedProduct, first: int)
    requires IdsBelow(db, first)
    ensures IdsBelow(Inserted(db, Attached(e, first)), first + 1 + ChildCount(e))
  {
    var a := Attached(e, first);
    NumberChildrenFits(e.(product := e.product.(id := first)), first, first + 1);
    var d := Inserted(db, a);
    assert forall i :: 0 <= i < |d.sizes| ==> d.sizes[i] == if i < |db.sizes| then db.sizes[i] else a.sizes[i - |db.sizes|];
    assert forall i :: 0 <= i < |d.colors| ==> d.colors[i] == if i < |db.colors| then db.colors[i] else a.colors[i - |db.colors|];
    assert forall i :: 0 <= i < |d.variants| ==> d.variants[i] == if i < |db.variants| then db.variants[i] else a.variants[i - |db.variants|];
    assert forall i :: 0 <= i < |d.products| ==> d.products[i] == if i < |db.products| then db.products[i] else a.product;
  }

  /** The new rows keep every key unique. */
  lemma InsertedKeysUnique(db: Db, e: LoadedProduct, first: int)
    requires Consistent(db, first)
    ensures KeysUnique(Inserted(db, Attached(e, first)))
  {
    var a := Attached(e, first);
    NumberChildrenFits(e.(product := e.product.(id := first)), first, first + 1);
    UniqueAppend(db.products, [a.product], ProductKey, first);
    UniqueAppend(db.sizes, a.sizes, SizeKey, first);
    UniqueAppend(db.colors, a.colors, ColorKey, first);
    UniqueAppend(db.variants, a.variants, VariantKey, first);
  }

  /** The unique SKU index holds after the append exactly when no row had the SKU. */
  lemma AppendSkusUnique(products: seq<Product>, p: Product)
    requires SkusUnique(products)
    ensures SkusUnique(products + [p]) <==> SkuFree(products, p.sku, None)
  {
    var ps := products + [p];
    if SkusUnique(ps) {
      forall i | 0 <= i < |products| ensures products[i].sku != p.sku {
        assert ps[i] == products[i] && ps[|products|] == p;
      }
    }
  }

  /** The references resolve after the append exactly when the new product's category does. */
  lemma InsertedReferences(db: Db, e: LoadedProduct, first: int)
    requires Consistent(db, first)
    ensures ReferencesResolve(Inserted(db, Attached(e, first))) <==> CategoryResolves(db, e.product.categoryId)
  {
    var a := Attached(e, first);
    NumberChildrenFits(e.(product := e.product.(id := first)), first, first + 1);
    var d := Inserted(db, a);
    assert d.products[|db.products|] == a.product;
    forall id | HasProduct(db.products, id) ensures HasProduct(d.products, id) {
      var k :| 0 <= k < |db.products| && db.products[k].id == id;
      assert d.products[k] == db.products[k];
    }
    assert HasProduct(d.products, first);
    if CategoryResolves(db, e.product.categoryId) {
      assert forall i :: 0 <= i < |d.products| ==> d.products[i] == if i < |db.products| then db.products[i] else a.product;
      assert forall i :: 0 <= i < |d.sizes| ==> d.sizes[i] == if i < |db.sizes| then db.sizes[i] else a.sizes[i - |db.sizes|];
      assert forall i :: 0 <= i < |d.colors| ==> d.colors[i] == if i < |db.colors| then db.colors[i] else a.colors[i - |db.colors|];
      assert forall i :: 0 <= i < |d.variants| ==> d.variants[i] == if i < |db.variants| then db.variants[i] else a.variants[i - |db.variants|];
    }
  }

  /** The appended tables fit exactly when the old rows and the new object's rows fit. */
  lemma InsertedRowsFit(db: Db, a: LoadedProduct)
    ensures RowsFit(Inserted(db, a)) <==> RowsFit(db) && RowsOfFit(a)
  {
    var d := Inserted(db, a);
    assert forall i :: 0 <= i < |d.products| ==> d.products[i] == if i < |db.products| then db.products[i] else a.product;
    assert forall i :: 0 <= i < |d.sizes| ==> d.sizes[i] == if i < |db.sizes| then db.sizes[i] else a.sizes[i - |db.sizes|];
    assert forall i :: 0 <= i < |d.colors| ==> d.colors[i] == if i < |db.colors| then db.colors[i] else a.colors[i - |db.colors|];
    assert forall i :: 0 <= i < |d.variants| ==> d.variants[i] == if i < |db.variants| then db.variants[i] else a.variants[i - |db.variants|];
    if RowsFit(d) {
      assert ProductFits(d.products[|db.products|]);
      assert forall i :: 0 <= i < |a.sizes| ==> a.sizes[i] == d.sizes[|db.sizes| + i];
      assert forall i :: 0 <= i < |a.colors| ==> a.colors[i] == d.colors[|db.colors| + i];
      assert forall i :: 0 <= i < |a.variants| ==> a.variants[i] == d.variants[|db.variants| + i];
    }
  }

  /**
   * Saving a new product succeeds exactly when its rows fit their columns, no product
   * has its SKU yet and its category reference resolves.
   */
  lemma InsertedConstraints(db: Db, e: LoadedProduct, first: int)
    requires Consistent(db, first)
    ensures Constraints(Inserted(db, Attached(e, first))) <==>
      RowsOfFit(e) && SkuFree(db.products, e.product.sku, None) && CategoryResolves(db, e.product.categoryId)
  {
    var a := Attached(e, first);
    NumberChildrenFits(e.(product := e.product.(id := first)), first, first + 1);
    InsertedKeysUnique(db, e, first);
    AppendSkusUnique(db.products, a.product);
    InsertedReferences(db, e, first);
    InsertedRowsFit(db, a);
  }

  /** The children of a new key: none of the old rows, all of the new ones. */
  lemma FilterFresh<T>(olds: seq<T>, news: seq<T>, keep: T -> bool)
    requires forall i :: 0 <= i < |olds| ==> !keep(olds[i])
    requires forall i :: 0 <= i < |news| ==> keep(news[i])
    ensures Filter(olds + news, keep) == news
  {
    FilterNone(olds, keep);
    FilterConcat(olds, news, keep);
    FilterAll(news, keep);
  }

  /** No child row of a consistent state points at a key not yet issued. */
  lemma NoChildOfFreshKey(db: Db, first: int)
    requires Consistent(db, first)
    ensures forall i :: 0 <= i < |db.sizes| ==> !SizeOf(first)(db.sizes[i])
    ensures forall i :: 0 <= i < |db.colors| ==> !ColorOf(first)(db.colors[i])
    ensures forall i :: 0 <= i < |db.variants| ==> !VariantOf(first)(db.variants[i])
  {
    forall i | 0 <= i < |db.sizes| ensures !SizeOf(first)(db.sizes[i]) {
      var k :| 0 <= k < |db.products| && db.products[k].id == db.sizes[i].productId;
    }
    forall i | 0 <= i < |db.colors| ensures !ColorOf(first)(db.colors[i]) {
      var k :| 0 <= k < |db.products| && db.products[k].id == db.colors[i].productId;
    }
    forall i | 0 <= i < |db.variants| ensures !VariantOf(first)(db.variants[i]) {
      var k :| 0 <= k < |db.products| && db.products[k].id == db.variants[i].productId;
    }
  }

  /**
   * A saved new product reads back as it was saved: the lookup by its new key returns
   * the row, the category it points at and exactly its numbered children.
   */
  lemma AddThenGet(db: Db, e: LoadedProduct, first: int)
    requires Consistent(db, first)
    requires Constraints(Inserted(db, Attached(e, first)))
    requires e.category == CategoryOf(db, e.product.categoryId)
    ensures GetProductWithDetails(Inserted(db, Attached(e, first)), first) == Some(Attached(e, first))
  {
    var a := Attached(e, first);
    var d := Inserted(db, a);
    NumberChildrenFits(e.(product := e.product.(id := first)), first, first + 1);
    assert d.products[|db.products|] == a.product;
    FindProductUnique(d.products, |db.products|);
    NoChildOfFreshKey(db, first);
    FilterFresh(db.sizes, a.sizes, SizeOf(first));
    FilterFresh(db.colors, a.colors, ColorOf(first));
    FilterFresh(db.variants, a.variants, VariantOf(first));
    assert Details(d, a.product) == a;
  }

  /** Any other product reads back as before: its row, its category and its children. */
  lemma AddKeepsOthers(db: Db, e: LoadedProduct, first: int, id: int)
    requires Consistent(db, first) && id != first
    ensures GetProductWithDetails(Inserted(db, Attached(e, first)), id) == GetProductWithDetails(db, id)
  {
    var a := Attached(e, first);
    var d := Inserted(db, a);
    NumberChildrenFits(e.(product := e.product.(id := first)), first, first + 1);
    FindProductAppend(db.products, a.product, id);
    var fid := FindProduct(db.products, id);
    if fid.Some? {
      FindProductSpec(db.products, id);
      var p := fid.value;
      assert p.id == id;
      assert forall i :: 0 <= i < |a.sizes| ==> !SizeOf(id)(a.sizes[i]);
      assert forall i :: 0 <= i < |a.colors| ==> !ColorOf(id)(a.colors[i]);
      assert forall i :: 0 <= i < |a.variants| ==> !VariantOf(id)(a.variants[i]);
      FilterKeepsOld(db.sizes, a.sizes, SizeOf(id));
      FilterKeepsOld(db.colors, a.colors, ColorOf(id));
      FilterKeepsOld(db.variants, a.variants, VariantOf(id));
      assert Details(d, p) == Details(db, p);
    }
  }

  /** Appended rows that do not pass leave the filtered table as it was. */
  lemma FilterKeepsOld<T>(olds: seq<T>, news: seq<T>, keep: T -> bool)
    requires forall i :: 0 <= i < |news| ==> !keep(news[i])
    ensures Filter(olds + news, keep) == Filter(olds, keep)
  {
    FilterNone(news, keep);
    FilterConcat(olds, news, keep);
  }

  /** An appended row with another key does not change a lookup. */
  lemma {:induction false} FindProductAppend(products: seq<Product>, p: Product, id: int)
    requires p.id != id
    ensures FindProduct(products + [p], id) == FindProduct(products, id)
    decreases |products|
  {
    if products == [] {
      assert [p][1..] == [];
    } else {
      assert (products + [p])[1..] == products[1..] + [p];
      FindProductAppend(products[1..], p, id);
    }
  }

  // ---------------------------------------------------------------------------
  // What the schema makes of a replaced product
  // ---------------------------------------------------------------------------

  /** Overwriting a row by key keeps every key where it was. */
  lemma ReplaceRowKeys(products: seq<Product>, p: Product)
    ensures |ReplaceRow(products, p)| == |products|
    ensures forall i :: 0 <= i < |products| ==> ReplaceRow(products, p)[i].id == products[i].id
    ensures forall id :: HasProduct(ReplaceRow(products, p), id) <==> HasProduct(products, id)
    ensures UniqueBy(products, ProductKey) ==> UniqueBy(ReplaceRow(products, p), ProductKey)
  {
    var r := ReplaceRow(products, p);
    forall id ensures HasProduct(r, id) <==> HasProduct(products, id) {
      if HasProduct(r, id) {
        var k :| 0 <= k < |r| && r[k].id == id;
        assert products[k].id == id;
      }
      if HasProduct(products, id) {
        var k :| 0 <= k < |products| && products[k].id == id;
        assert r[k].id == id;
      }
    }
  }

  /** The unique SKU index survives the overwrite exactly when no other product has the SKU. */
  lemma ReplaceRowSkus(products: seq<Product>, p: Product)
    requires UniqueBy(products, ProductKey) && SkusUnique(products) && HasProduct(products, p.id)
    ensures SkusUnique(ReplaceRow(products, p)) <==> SkuFree(products, p.sku, Some(p.id))
  {
    var r := ReplaceRow(products, p);
    var k :| 0 <= k < |products| && products[k].id == p.id;
    assert r[k] == p;
    assert forall i :: 0 <= i < |products| && i != k ==> products[i].id != p.id by {
      assert forall i :: 0 <= i < |products| && i != k ==> ProductKey(products[i]) != ProductKey(products[k]);
    }
    if SkusUnique(r) {
      forall i | 0 <= i < |products| && products[i].id != p.id ensures products[i].sku != p.sku {
        assert r[i] == products[i];
      }
    }
  }

  /** The tables after the update obey the column limits exactly when the new rows do. */
  lemma ReplacedRowsFit(w: Db, a: LoadedProduct)
    requires RowsFit(w) && HasProduct(w.products, a.product.id)
    ensures RowsFit(Replaced(w, a)) <==> RowsOfFit(a)
  {
    var c := Replaced(w, a);
    var k :| 0 <= k < |w.products| && w.products[k].id == a.product.id;
    assert c.products[k] == a.product;
    assert forall i :: 0 <= i < |c.products| ==> c.products[i] == a.product || c.products[i] == w.products[i];
    assert forall i :: 0 <= i < |c.sizes| ==> c.sizes[i] == if i < |w.sizes| then w.sizes[i] else a.sizes[i - |w.sizes|];
    assert forall i :: 0 <= i < |c.colors| ==> c.colors[i] == if i < |w.colors| then w.colors[i] else a.colors[i - |w.colors|];
    assert forall i :: 0 <= i < |c.variants| ==> c.variants[i] == if i < |w.variants| then w.variants[i] else a.variants[i - |w.variants|];
    if RowsFit(c) {
      assert forall i :: 0 <= i < |a.sizes| ==> a.sizes[i] == c.sizes[|w.sizes| + i];
      assert forall i :: 0 <= i < |a.colors| ==> a.colors[i] == c.colors[|w.colors| + i];
      assert forall i :: 0 <= i < |a.variants| ==> a.variants[i] == c.variants[|w.variants| + i];
    }
  }

  /** The update's rows take keys above every key in use; the overwritten row keeps its key. */
  lemma ReplacedIdsBelow(db: Db, e: LoadedProduct, first: int)
    requires IdsBelow(db, first)
    ensures IdsBelow(Replaced(WithoutChildren(db, e.product.id), NumberChildren(e, e.product.id, first)), first + ChildCount(e))
  {
    var pid := e.product.id;
    DeletesKeepIdsBelow(db, pid, 0, first);
    NumberChildrenFits(e, pid, first);
    AppendedIdsBelow(WithoutChildren(db, pid), NumberChildren(e, pid, first), first, first + ChildCount(e));
  }

  /** Appending children numbered below `hi` and overwriting a row by key keeps keys below `hi`. */
  lemma AppendedIdsBelow(w: Db, a: LoadedProduct, lo: int, hi: int)
    requires IdsBelow(w, lo) && lo <= hi && ChildrenNumbered(a, a.product.id, lo, hi)
    ensures IdsBelow(Replaced(w, a), hi)
  {
    ReplaceRowKeys(w.products, a.product);
    var c := Replaced(w, a);
    assert forall i :: 0 <= i < |c.sizes| ==> c.sizes[i] == if i < |w.sizes| then w.sizes[i] else a.sizes[i - |w.sizes|];
    assert forall i :: 0 <= i < |c.colors| ==> c.colors[i] == if i < |w.colors| then w.colors[i] else a.colors[i - |w.colors|];
    assert forall i :: 0 <= i < |c.variants| ==> c.variants[i] == if i < |w.variants| then w.variants[i] else a.variants[i - |w.variants|];
  }

  /** The update's rows keep every key unique. */
  lemma ReplacedKeysUnique(db: Db, e: LoadedProduct, first: int)
    requires Consistent(db, first)
    ensures KeysUnique(Replaced(WithoutChildren(db, e.product.id), NumberChildren(e, e.product.id, first)))
  {
    var pid := e.product.id;
    var w := WithoutChildren(db, pid);
    WithoutChildrenKeepsConsistent(db, pid, first);
    var a := NumberChildren(e, pid, first);
    NumberChildrenFits(e, pid, first);
    ReplaceRowKeys(w.products, e.product);
    UniqueAppend(w.sizes, a.sizes, SizeKey, first);
    UniqueAppend(w.colors, a.colors, ColorKey, first);
    UniqueAppend(w.variants, a.variants, VariantKey, first);
  }

  /** The references resolve after the update exactly when the product's new category does. */
  lemma ReplacedReferences(db: Db, e: LoadedProduct, first: int)
    requires Consistent(db, first) && HasProduct(db.products, e.product.id)
    ensures ReferencesResolve(Replaced(WithoutChildren(db, e.product.id), NumberChildren(e, e.product.id, first)))
      <==> CategoryResolves(db, e.product.categoryId)
  {
    var pid := e.product.id;
    WithoutChildrenKeepsConsistent(db, pid, first);
    NumberChildrenFits(e, pid, first);
    ReplacedChildrenResolve(WithoutChildren(db, pid), NumberChildren(e, pid, first), first, first + ChildCount(e));
    ReplacedCategoriesResolve(WithoutChildren(db, pid), e.product);
  }

  /** Every child row still points at a product: the old ones at theirs, the new ones at the overwritten row. */
  lemma ReplacedChildrenResolve(w: Db, a: LoadedProduct, lo: int, hi: int)
    requires ReferencesResolve(w) && HasProduct(w.products, a.product.id) && ChildrenNumbered(a, a.product.id, lo, hi)
    ensures var c := Replaced(w, a);
      && (forall i :: 0 <= i < |c.sizes| ==> HasProduct(c.products, c.sizes[i].productId))
      && (forall i :: 0 <= i < |c.colors| ==> HasProduct(c.products, c.colors[i].productId))
      && (forall i :: 0 <= i < |c.variants| ==> HasProduct(c.products, c.variants[i].productId))
  {
    ReplaceRowKeys(w.products, a.product);
    var c := Replaced(w, a);
    assert forall i :: 0 <= i < |c.sizes| ==> c.sizes[i] == if i < |w.sizes| then w.sizes[i] else a.sizes[i - |w.sizes|];
    assert forall i :: 0 <= i < |c.colors| ==> c.colors[i] == if i < |w.colors| then w.colors[i] else a.colors[i - |w.colors|];
    assert forall i :: 0 <= i < |c.variants| ==> c.variants[i] == if i < |w.variants| then w.variants[i] else a.variants[i - |w.variants|];
  }

  /** Every category reference resolves after the overwrite exactly when the new row's does. */
  lemma ReplacedCategoriesResolve(w: Db, p: Product)
    requires ReferencesResolve(w) && HasProduct(w.products, p.id)
    ensures var ps := ReplaceRow(w.products, p);
      (forall i :: 0 <= i < |ps| && ps[i].categoryId.Some? ==> HasCategory(w.categories, ps[i].categoryId.value))
      <==> CategoryResolves(w, p.categoryId)
  {
    var ps := ReplaceRow(w.products, p);
    var k :| 0 <= k < |w.products| && w.products[k].id == p.id;
    assert ps[k] == p;
  }

  /**
   * Saving an update succeeds exactly when its rows fit their columns, no other product
   * has its SKU and its category reference resolves.
   */
  lemma UpdatedConstraints(db: Db, e: LoadedProduct, first: int)
    requires Consistent(db, first) && HasProduct(db.products, e.product.id)
    ensures Constraints(Replaced(WithoutChildren(db, e.product.id), NumberChildren(e, e.product.id, first))) <==>
      RowsOfFit(e) && SkuFree(db.products, e.product.sku, Some(e.product.id)) && CategoryResolves(db, e.product.categoryId)
  {
    var pid := e.product.id;
    var w := WithoutChildren(db, pid);
    WithoutChildrenKeepsConsistent(db, pid, first);
    var a := NumberChildren(e, pid, first);
    NumberChildrenFits(e, pid, first);
    ReplacedKeysUnique(db, e, first);
    ReplaceRowSkus(w.products, e.product);
    ReplacedReferences(db, e, first);
    ReplacedRowsFit(w, a);
  }

  /** An overwritten row with another key does not change a lookup. */
  lemma {:induction false} FindProductReplace(products: seq<Product>, p: Product, id: int)
    requires p.id != id
    ensures FindProduct(ReplaceRow(products, p), id) == FindProduct(products, id)
    decreases |products|
  {
    if products != [] {
      assert ReplaceRow(products, p)[1..] == ReplaceRow(products[1..], p);
      FindProductReplace(products[1..], p, id);
    }
  }

  /** Looking up the overwritten key finds the new row. */
  lemma FindProductReplaced(products: seq<Product>, p: Product)
    requires UniqueBy(products, ProductKey) && HasProduct(products, p.id)
    ensures FindProduct(ReplaceRow(products, p), p.id) == Some(p)
  {
    var k :| 0 <= k < |products| && products[k].id == p.id;
    ReplaceRowKeys(products, p);
    assert ReplaceRow(products, p)[k] == p;
    FindProductUnique(ReplaceRow(products, p), k);
  }

  /** After the update the product's children are exactly the new ones. */
  lemma ChildrenReplaced(db: Db, a: LoadedProduct, pid: int)
    requires forall i :: 0 <= i < |a.sizes| ==> a.sizes[i].productId == pid
    requires forall i :: 0 <= i < |a.colors| ==> a.colors[i].productId == pid
    requires forall i :: 0 <= i < |a.variants| ==> a.variants[i].productId == pid
    ensures var w := WithoutChildren(db, pid);
      && Filter(w.sizes + a.sizes, SizeOf(pid)) == a.sizes
      && Filter(w.colors + a.colors, ColorOf(pid)) == a.colors
      && Filter(w.variants + a.variants, VariantOf(pid)) == a.variants
  {
    var w := WithoutChildren(db, pid);
    assert forall i :: 0 <= i < |w.sizes| ==> SizeNotOf(pid)(w.sizes[i]);
    assert forall i :: 0 <= i < |w.colors| ==> ColorNotOf(pid)(w.colors[i]);
    assert forall i :: 0 <= i < |w.variants| ==> VariantNotOf(pid)(w.variants[i]);
    FilterFresh(w.sizes, a.sizes, SizeOf(pid));
    FilterFresh(w.colors, a.colors, ColorOf(pid));
    FilterFresh(w.variants, a.variants, VariantOf(pid));
  }

  /**
   * An updated product reads back as it was saved: the overwritten row, the category
   * it now points at and exactly the new children; none of the old children is left.
   */
  lemma UpdateThenGet(db: Db, e: LoadedProduct, first: int)
    requires UniqueBy(db.products, ProductKey) && HasProduct(db.products, e.product.id)
    requires e.category == CategoryOf(db, e.product.categoryId)
    ensures GetProductWithDetails(Replaced(WithoutChildren(db, e.product.id), NumberChildren(e, e.product.id, first)), e.product.id)
      == Some(NumberChildren(e, e.product.id, first))
  {
    var pid := e.product.id;
    var a := NumberChildren(e, pid, first);
    NumberChildrenFits(e, pid, first);
    FindProductReplaced(db.products, e.product);
    ChildrenReplaced(db, a, pid);
  }

  /** An update leaves every other product reading back as before. */
  lemma UpdateKeepsOthers(db: Db, e: LoadedProduct, first: int, id: int)
    requires id != e.product.id
    ensures GetProductWithDetails(Replaced(WithoutChildren(db, e.product.id), NumberChildren(e, e.product.id, first)), id)
      == GetProductWithDetails(db, id)
  {
    var pid := e.product.id;
    var w := WithoutChildren(db, pid);
    var a := NumberChildren(e, pid, first);
    var c := Replaced(w, a);
    NumberChildrenFits(e, pid, first);
    FindProductReplace(db.products, e.product, id);
    var fid := FindProduct(db.products, id);
    if fid.Some? {
      FindProductSpec(db.products, id);
      var p := fid.value;
      FilterKeepsOld(w.sizes, a.sizes, SizeOf(id));
      FilterKeepsOld(w.colors, a.colors, ColorOf(id));
      FilterKeepsOld(w.variants, a.variants, VariantOf(id));
      FilterOfFilter(db.sizes, SizeNotOf(pid), SizeOf(id));
      FilterOfFilter(db.colors, ColorNotOf(pid), ColorOf(id));
      FilterOfFilter(db.variants, VariantNotOf(pid), VariantOf(id));
      assert Details(c, p) == Details(db, p);
    }
  }

  // ---------------------------------------------------------------------------
  // The repository
  // ---------------------------------------------------------------------------

  /** The product repository over one database. */
  class ProductRepository {
    const store: Store

    constructor(store: Store)
      ensures this.store == store
    {
      this.store := store;
    }

    predicate Valid()
      reads this, store
    {
      store.Valid()
    }

    /**
     * `AddAsync`: inserts the product and its children in one save. The rows draw their
     * keys from the counter (the product first); a save the schema refuses changes nothing.
     */
    method Add(e: LoadedProduct) returns (r: Result<LoadedProduct, StoreError>)
      requires Valid()
      modifies store
      ensures Valid()
      ensures store.nextId == old(store.nextId) + 1 + ChildCount(e)
      ensures var a := Attached(e, old(store.nextId));
        var c := Inserted(old(store.Contents()), a);
        && (r.Success? <==> Constraints(c))
        && (r.Success? ==> r.value == a && store.Contents() == c)
        && (r.Failure? ==> r.error == ConstraintViolation && store.Contents() == old(store.Contents()))
    {
      var first := store.NewIds(1 + ChildCount(e));
      var a := Attached(e, first);
      var c := Inserted(store.Contents(), a);
      InsertedIdsBelow(store.Contents(), e, first);
      var ok := store.SaveChanges(c);
      if ok {
        r := Success(a);
      } else {
        r := Failure(ConstraintViolation);
      }
    }

    /**
     * `UpdateAsync`: deletes the product's old children at once, then saves the
     * overwritten row with fresh copies of the new children. When that save fails the
     * old children stay deleted. A row that is no longer there affects nothing and fails.
     */
    method Update(e: LoadedProduct) returns (r: Result<LoadedProduct, StoreError>)
      requires Valid()
      modifies store
      ensures Valid()
      ensures store.nextId == old(store.nextId) + ChildCount(e)
      ensures var pid := e.product.id;
        var cleared := WithoutChildren(old(store.Contents()), pid);
        var a := NumberChildren(e, pid, old(store.nextId));
        var c := Replaced(cleared, a);
        && (r.Success? <==> HasProduct(old(store.products), pid) && Constraints(c))
        && (r.Success? ==> r.value == a && store.Contents() == c)
        && (r.Failure? ==> store.Contents() == cleared)
        && (r.Failure? ==> (r.error == RowMissing <==> !HasProduct(old(store.products), pid)))
    {
      var pid := e.product.id;
      ghost var before := store.Contents();
      store.ExecuteDeleteChildren(pid);
      var first := store.NewIds(ChildCount(e));
      var a := NumberChildren(e, pid, first);
      if !HasProduct(store.products, pid) {
        r := Failure(RowMissing);
        return;
      }
      var c := Replaced(store.Contents(), a);
      ReplacedIdsBelow(before, e, first);
      var ok := store.SaveChanges(c);
      if ok {
        r := Success(a);
      } else {
        r := Failure(ConstraintViolation);
      }
    }

    /** `DeleteAsync`: removes the row and, by cascade, its children; a missing row fails. */
    method Delete(p: Product) returns (r: Result<Product, StoreError>)
      requires Valid()
      modifies store
      ensures Valid()
      ensures store.nextId == old(store.nextId)
      ensures r.Success? <==> HasProduct(old(store.products), p.id)
      ensures r.Success? ==> r.value == p && store.Contents() == CascadeDelete(old(store.Contents()), p.id)
      ensures r.Failure? ==> r.error == RowMissing && store.Contents() == old(store.Contents())
    {
      if !HasProduct(store.products, p.id) {
        r := Failure(RowMissing);
        return;
      }
      var c := CascadeDelete(store.Contents(), p.id);
      CascadeDeleteKeepsConstraints(store.Contents(), p.id);
      DeletesKeepIdsBelow(store.Contents(), p.id, 0, store.nextId);
      var ok := store.SaveChanges(c);
      r := Success(p);
    }
  }
}
