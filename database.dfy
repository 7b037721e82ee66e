/**
 * The relational store behind the catalogue (AppDbContext.cs): five tables, the
 * schema's length limits, primary keys, the unique product SKU and the foreign
 * keys, and the two delete rules (a product takes its sizes, colours and variants
 * with it; a category leaves its products behind without a category).
 *
 * The database enforces the schema: `SaveChanges` commits a candidate state only
 * when it satisfies `Constraints` and otherwise fails, leaving the tables as they
 * were. Identity columns draw on one counter, `nextId`, that only grows.
 */
module Database {

  import opened Wrappers
  import opened Lists
  import opened Entities

  // ---------------------------------------------------------------------------
  // Column limits
  // ---------------------------------------------------------------------------

  const MaxCategoryName: nat := 100
  const MaxCategoryDescription: nat := 500
  const MaxProductName: nat := 200
  const MaxSku: nat := 100
  const MaxBarcode: nat := 100
  const MaxImageUrl: nat := 500
  const MaxTag: nat := 50
  const MaxVariantSku: nat := 150

  /** `decimal(18,2)` holds 16 digits before the point and 2 after: in cents, fewer than 18 digits. */
  const MoneyLimit: int := 1_000_000_000_000_000_000

  /** An amount of cents that a `decimal(18,2)` column can hold. */
  predicate IsMoney(cents: int) {
    -MoneyLimit < cents < MoneyLimit
  }

  /** A nullable text column of at most `n` characters. */
  predicate FitsOpt(s: Option<string>, n: nat) {
    s.None? || |s.value| <= n
  }

  predicate CategoryFits(c: Category) {
    |c.name| <= MaxCategoryName && FitsOpt(c.description, MaxCategoryDescription)
  }

  predicate ProductFits(p: Product) {
    |p.name| <= MaxProductName && |p.sku| <= MaxSku && FitsOpt(p.barcode, MaxBarcode)
    && IsMoney(p.price) && FitsOpt(p.imageUrl, MaxImageUrl)
  }

  predicate SizeFits(s: ProductSize) {
    |s.size| <= MaxTag
  }

  predicate ColorFits(c: ProductColor) {
    |c.color| <= MaxTag
  }

  predicate VariantFits(v: ProductVariant) {
    |v.sku| <= MaxVariantSku && FitsOpt(v.barcode, MaxBarcode) && FitsOpt(v.size, MaxTag)
    && FitsOpt(v.color, MaxTag) && (v.priceAdjustment.None? || IsMoney(v.priceAdjustment.value))
  }

  // ---------------------------------------------------------------------------
  // The tables and their integrity rules
  // ---------------------------------------------------------------------------

  /** The contents of the five tables, each in storage order. */
  datatype Db = Db(
    categories: seq<Category>,
    products: seq<Product>,
    sizes: seq<ProductSize>,
    colors: seq<ProductColor>,
    variants: seq<ProductVariant>)

  function CategoryKey(c: Category): int { c.id }
  function ProductKey(p: Product): int { p.id }
  function SizeKey(s: ProductSize): int { s.id }
  function ColorKey(c: ProductColor): int { c.id }
  function VariantKey(v: ProductVariant): int { v.id }

  /** No two rows of a table share a key. */
  predicate UniqueBy<T>(rows: seq<T>, key: T -> int) {
    forall i, j :: 0 <= i < j < |rows| ==> key(rows[i]) != key(rows[j])
  }

  /** Every table's primary key is unique. */
  predicate KeysUnique(db: Db) {
    UniqueBy(db.categories, CategoryKey) && UniqueBy(db.products, ProductKey)
    && UniqueBy(db.sizes, SizeKey) && UniqueBy(db.colors, ColorKey) && UniqueBy(db.variants, VariantKey)
  }

  /** The unique index on `Products.SKU`. */
  predicate SkusUnique(products: seq<Product>) {
    forall i, j :: 0 <= i < j < |products| ==> products[i].sku != products[j].sku
  }

  predicate HasCategory(categories: seq<Category>, id: int) {
    exists i :: 0 <= i < |categories| && categories[i].id == id
  }

  predicate HasProduct(products: seq<Product>, id: int) {
    exists i :: 0 <= i < |products| && products[i].id == id
  }

  /** Every foreign key points at an existing row. */
  predicate ReferencesResolve(db: Db) {
    (forall i :: 0 <= i < |db.products| && db.products[i].categoryId.Some? ==>
       HasCategory(db.categories, db.products[i].categoryId.value))
    && (forall i :: 0 <= i < |db.sizes| ==> HasProduct(db.products, db.sizes[i].productId))
    && (forall i :: 0 <= i < |db.colors| ==> HasProduct(db.products, db.colors[i].productId))
    && (forall i :: 0 <= i < |db.variants| ==> HasProduct(db.products, db.variants[i].productId))
  }

  /** Every row fits its columns. */
  predicate RowsFit(db: Db) {
    (forall i :: 0 <= i < |db.categories| ==> CategoryFits(db.categories[i]))
    && (forall i :: 0 <= i < |db.products| ==> ProductFits(db.products[i]))
    && (forall i :: 0 <= i < |db.sizes| ==> SizeFits(db.sizes[i]))
    && (forall i :: 0 <= i < |db.colors| ==> ColorFits(db.colors[i]))
    && (forall i :: 0 <= i < |db.variants| ==> VariantFits(db.variants[i]))
  }

  /** The schema of `OnModelCreating`. */
  predicate Constraints(db: Db) {
    RowsFit(db) && KeysUnique(db) && SkusUnique(db.products) && ReferencesResolve(db)
  }

  /** Every identity value issued so far is below `next`. */
  predicate IdsBelow(db: Db, next: int) {
    (forall i :: 0 <= i < |db.categories| ==> db.categories[i].id < next)
    && (forall i :: 0 <= i < |db.products| ==> db.products[i].id < next)
    && (forall i :: 0 <= i < |db.sizes| ==> db.sizes[i].id < next)
    && (forall i :: 0 <= i < |db.colors| ==> db.colors[i].id < next)
    && (forall i :: 0 <= i < |db.variants| ==> db.variants[i].id < next)
  }

  /** A committed state: the schema holds and every identity value issued is below `next`. */
  predicate Consistent(db: Db, next: int) {
    Constraints(db) && IdsBelow(db, next)
  }

  /** The five categories the schema seeds. */
  const SeedCategories: seq<Category> := [
    Category(1, "Electronics", Some("Gadgets and devices")),
    Category(2, "Clothing", Some("Apparel and fashion")),
    Category(3, "Footwear", Some("Shoes and boots")),
    Category(4, "Accessories", Some("Bags, belts, and more")),
    Category(5, "Food & Bev", Some("Food and beverage products"))
  ]

  // ---------------------------------------------------------------------------
  // The delete rules
  // ---------------------------------------------------------------------------

  /** The row tests of the delete statements, one per table. */
  function SizeNotOf(productId: int): ProductSize -> bool { (s: ProductSize) => s.productId != productId }
  function ColorNotOf(productId: int): ProductColor -> bool { (c: ProductColor) => c.productId != productId }
  function VariantNotOf(productId: int): ProductVariant -> bool { (v: ProductVariant) => v.productId != productId }
  function ProductOtherThan(productId: int): Product -> bool { (p: Product) => p.id != productId }
  function CategoryOtherThan(categoryId: int): Category -> bool { (c: Category) => c.id != categoryId }

  /** The children of one product gone, as the three `ExecuteDelete` statements leave them. */
  function WithoutChildren(db: Db, productId: int): Db {
    db.(sizes := Filter(db.sizes, SizeNotOf(productId)),
        colors := Filter(db.colors, ColorNotOf(productId)),
        variants := Filter(db.variants, VariantNotOf(productId)))
  }

  /** Deleting a product: the row and, by `OnDelete(Cascade)`, its sizes, colours and variants. */
  function CascadeDelete(db: Db, productId: int): Db {
    WithoutChildren(db, productId).(products := Filter(db.products, ProductOtherThan(productId)))
  }

  /** A product row with its category reference cleared when it pointed at `categoryId`. */
  function Unlink(p: Product, categoryId: int): Product {
    if p.categoryId == Some(categoryId) then p.(categoryId := None) else p
  }

  /** Deleting a category: the row goes, and by `OnDelete(SetNull)` its products lose their reference. */
  function SetNullDelete(db: Db, categoryId: int): Db {
    db.(categories := Filter(db.categories, CategoryOtherThan(categoryId)),
        products := seq(|db.products|, i requires 0 <= i < |db.products| => Unlink(db.products[i], categoryId)))
  }

  // ---------------------------------------------------------------------------
  // Properties of the rules
  // ---------------------------------------------------------------------------

  /** A filtered table keeps its unique key. */
  lemma FilterKeepsUnique<T>(rows: seq<T>, keep: T -> bool, key: T -> int)
    requires UniqueBy(rows, key)
    ensures UniqueBy(Filter(rows, keep), key)
  {
    FilterPairwise(rows, keep, (a: T, b: T) => key(a) != key(b));
  }

  /** The seeded store satisfies the schema. */
  lemma SeedSatisfiesConstraints()
    ensures Constraints(Db(SeedCategories, [], [], [], []))
    ensures IdsBelow(Db(SeedCategories, [], [], [], []), 6)
  {
    var c := SeedCategories;
    assert forall i :: 0 <= i < |c| ==> c[i].id == i + 1;
    assert forall i :: 0 <= i < |c| ==> |c[i].name| <= 11 && FitsOpt(c[i].description, 26);
  }

  /** Removing the children of a product keeps the schema. */
  lemma WithoutChildrenKeepsConstraints(db: Db, productId: int)
    requires Constraints(db)
    ensures Constraints(WithoutChildren(db, productId))
  {
    FilterKeepsUnique(db.sizes, SizeNotOf(productId), SizeKey);
    FilterKeepsUnique(db.colors, ColorNotOf(productId), ColorKey);
    FilterKeepsUnique(db.variants, VariantNotOf(productId), VariantKey);
  }

  /** Deleting rows issues no identity values. */
  lemma DeletesKeepIdsBelow(db: Db, productId: int, categoryId: int, n: int)
    requires IdsBelow(db, n)
    ensures IdsBelow(WithoutChildren(db, productId), n)
    ensures IdsBelow(CascadeDelete(db, productId), n)
    ensures IdsBelow(SetNullDelete(db, categoryId), n)
  {
    assert forall i :: 0 <= i < |db.products| ==> Unlink(db.products[i], categoryId).id == db.products[i].id;
  }

  /** Removing the children of a product keeps a committed state consistent. */
  lemma WithoutChildrenKeepsConsistent(db: Db, productId: int, n: int)
    requires Consistent(db, n)
    ensures Consistent(WithoutChildren(db, productId), n)
  {
    WithoutChildrenKeepsConstraints(db, productId);
    DeletesKeepIdsBelow(db, productId, 0, n);
  }

  /** A product other than the deleted one is still there. */
  lemma OtherProductSurvives(products: seq<Product>, productId: int, id: int)
    requires HasProduct(products, id) && id != productId
    ensures HasProduct(Filter(products, ProductOtherThan(productId)), id)
  {
    var k :| 0 <= k < |products| && products[k].id == id;
    assert ProductOtherThan(productId)(products[k]);
  }

  /** Deleting a product keeps the schema and leaves nothing that refers to it. */
  lemma CascadeDeleteKeepsConstraints(db: Db, productId: int)
    requires Constraints(db)
    ensures var d := CascadeDelete(db, productId);
      && Constraints(d)
      && !HasProduct(d.products, productId)
      && (forall i :: 0 <= i < |d.sizes| ==> d.sizes[i].productId != productId)
      && (forall i :: 0 <= i < |d.colors| ==> d.colors[i].productId != productId)
      && (forall i :: 0 <= i < |d.variants| ==> d.variants[i].productId != productId)
  {
    WithoutChildrenKeepsConstraints(db, productId);
    var keep := ProductOtherThan(productId);
    var w := WithoutChildren(db, productId);
    var d := CascadeDelete(db, productId);
    FilterKeepsUnique(db.products, keep, ProductKey);
    FilterPairwise(db.products, keep, (a: Product, b: Product) => a.sku != b.sku);
    assert forall i :: 0 <= i < |d.sizes| ==> SizeNotOf(productId)(d.sizes[i]);
    assert forall i :: 0 <= i < |d.colors| ==> ColorNotOf(productId)(d.colors[i]);
    assert forall i :: 0 <= i < |d.variants| ==> VariantNotOf(productId)(d.variants[i]);
    forall i | 0 <= i < |d.sizes| ensures HasProduct(d.products, d.sizes[i].productId) {
      OtherProductSurvives(db.products, productId, d.sizes[i].productId);
    }
    forall i | 0 <= i < |d.colors| ensures HasProduct(d.products, d.colors[i].productId) {
      OtherProductSurvives(db.products, productId, d.colors[i].productId);
    }
    forall i | 0 <= i < |d.variants| ensures HasProduct(d.products, d.variants[i].productId) {
      OtherProductSurvives(db.products, productId, d.variants[i].productId);
    }
  }

  /**
   * Deleting a category keeps the schema; every product survives with its key, SKU and
   * other columns, and only those that pointed at the category lose the reference.
   */
  lemma SetNullDeleteKeepsConstraints(db: Db, categoryId: int)
    requires Constraints(db)
    ensures var d := SetNullDelete(db, categoryId);
      && Constraints(d)
      && !HasCategory(d.categories, categoryId)
      && |d.products| == |db.products|
      && (forall i :: 0 <= i < |d.products| ==>
            d.products[i] == (if db.products[i].categoryId == Some(categoryId)
                              then db.products[i].(categoryId := None) else db.products[i]))
  {
    var keepC := CategoryOtherThan(categoryId);
    var d := SetNullDelete(db, categoryId);
    FilterKeepsUnique(db.categories, keepC, CategoryKey);
    assert forall i :: 0 <= i < |d.products| ==> d.products[i].id == db.products[i].id && d.products[i].sku == db.products[i].sku;
    forall i | 0 <= i < |d.products| && d.products[i].categoryId.Some?
      ensures HasCategory(d.categories, d.products[i].categoryId.value)
    {
      var cid := d.products[i].categoryId.value;
      var k :| 0 <= k < |db.categories| && db.categories[k].id == cid;
      assert keepC(db.categories[k]);
    }
    SameProductKeys(db, d.products);
  }

  /** Child rows that resolve against a product table still resolve against one with the same keys. */
  lemma SameProductKeys(db: Db, products: seq<Product>)
    requires ReferencesResolve(db)
    requires |products| == |db.products|
    requires forall i :: 0 <= i < |products| ==> products[i].id == db.products[i].id
    ensures forall i :: 0 <= i < |db.sizes| ==> HasProduct(products, db.sizes[i].productId)
    ensures forall i :: 0 <= i < |db.colors| ==> HasProduct(products, db.colors[i].productId)
    ensures forall i :: 0 <= i < |db.variants| ==> HasProduct(products, db.variants[i].productId)
  {
    forall id | HasProduct(db.products, id) ensures HasProduct(products, id) {
      var k :| 0 <= k < |db.products| && db.products[k].id == id;
      assert products[k].id == id;
    }
  }

  // ---------------------------------------------------------------------------
  // The store
  // ---------------------------------------------------------------------------

  /** The database: the five tables and the identity counter. */
  class Store {
    var categories: seq<Category>
    var products: seq<Product>
    var sizes: seq<ProductSize>
    var colors: seq<ProductColor>
    var variants: seq<ProductVariant>
    var nextId: int

    /** The committed contents of the tables. */
    function Contents(): Db
      reads this
    {
      Db(categories, products, sizes, colors, variants)
    }

    /** The committed state obeys the schema, and every identity issued is below the counter. */
    predicate Valid()
      reads this
    {
      Consistent(Contents(), nextId)
    }

    /** A freshly migrated database: the seeded categories and nothing else. */
    constructor()
      ensures Valid()
      ensures Contents() == Db(SeedCategories, [], [], [], [])
    {
      categories := SeedCategories;
      products := [];
      sizes := [];
      colors := [];
      variants := [];
      nextId := 6;
      SeedSatisfiesConstraints();
    }

    /** Draws `n` identity values: `first`, ..., `first + n - 1`, all above every key in use. */
    method NewIds(n: nat) returns (first: int)
      requires Valid()
      modifies this
      ensures Valid()
      ensures Contents() == old(Contents())
      ensures first == old(nextId) && nextId == first + n
    {
      first := nextId;
      nextId := nextId + n;
    }

    /** Commits `candidate` when it satisfies the schema; otherwise the tables stay as they were. */
    method SaveChanges(candidate: Db) returns (ok: bool)
      requires Valid()
      requires IdsBelow(candidate, nextId)
      modifies this
      ensures Valid()
      ensures nextId == old(nextId)
      ensures ok == Constraints(candidate)
      ensures Contents() == if ok then candidate else old(Contents())
    {
      ok := Constraints(candidate);
      if ok {
        categories := candidate.categories;
        products := candidate.products;
        sizes := candidate.sizes;
        colors := candidate.colors;
        variants := candidate.variants;
      }
    }

    /** The three `ExecuteDelete` statements for one product's children, each committed at once. */
    method ExecuteDeleteChildren(productId: int)
      requires Valid()
      modifies this
      ensures Valid()
      ensures nextId == old(nextId)
      ensures Contents() == WithoutChildren(old(Contents()), productId)
    {
      var d := WithoutChildren(Contents(), productId);
      WithoutChildrenKeepsConsistent(Contents(), productId, nextId);
      sizes, colors, variants := d.sizes, d.colors, d.variants;
      assert Contents() == d;
    }
  }
}
