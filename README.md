# POS-Uni product catalogue and point of sale, modelled in Dafny

POS-Uni is a small retail system. Its backend is an ASP.NET Core service over
Entity Framework Core and SQL Server. It keeps products with their size tags, colour
tags and generated size/colour variants. Its frontend is an Angular client with a
point-of-sale screen, a product catalogue with a create/edit dialog, a cart kept in the
browser session, and toast notifications.

This project models:

- **Backend**
  - the variant builder (`BuildVariants` / `NewVariant`);
  - the product service's create, read, update and delete operations;
  - the repository's queries and its delete-then-insert update;
  - the database schema as constraints that every committed state satisfies.
- **Frontend**
  - the cart service and the toast service;
  - the variant picker shared by the point-of-sale screen and the product list;
  - the product list's table state;
  - the product dialog's tag editing, variant preview, image checks and submit flow;
  - the header's title and cart badge;
  - the image-URL and variant-label display helpers.

How the source becomes Dafny:

- **Pure code** becomes functions, with lemmas about them.
  - This covers LINQ queries, `computed` signals that read only other signals, label and URL helpers, and `ToDto`.
  - The dialog's `previewVariants` also reads the form, which is not a signal, so it is a field that the tag methods recompute (`ProductDialog.ProductDialogComponent.preview`).
- **Code that mutates state** becomes classes.
  - This covers the EF context, the repository, the service, the Angular services and the components, mostly through their signals.
  - Each method states its whole new state.
  - Each method keeps a class invariant that the proofs rely on.
- **Loops in the source** become `while` loops.
  - The builder's `foreach` loops are proved against the function `VariantBuilder.Variants`.

Modules and the source they follow:

| module | file | source |
|---|---|---|
| `Wrappers` | wrappers.dfy | `Option` / `Result` (C# nullable fields, TypeScript optionals, exceptions) |
| `Text` | text.dfy | the .NET and JavaScript string operations the code calls |
| `Lists` | lists.dfy | LINQ `Distinct` / `Where`, JavaScript `filter` |
| `Entities` | entities.dfy | backend/ProductManager.Domain/Entities |
| `Database` | database.dfy | backend/ProductManager.Infrastructure/Data/AppDbContext.cs |
| `VariantBuilder` | variant_builder.dfy | `BuildVariants` and `NewVariant` in ProductService.cs |
| `Repositories` | product_repository.dfy | ProductRepository.cs and Repository.cs |
| `Services` | product_service.dfy | ProductService.cs |
| `ClientModels` | client_models.dfy | frontend/src/app/core/models/product.model.ts |
| `Cart` | cart.dfy | frontend/src/app/core/services/cart.service.ts |
| `Toasts` | toasts.dfy | frontend/src/app/core/services/toast.service.ts |
| `Display` | display.dfy | `resolveImageUrl`, labels and the variant cell of the screens |
| `Header` | header.dfy | frontend/src/app/layout/header/header.component.ts |
| `VariantPicker` | variant_picker.dfy | the picker of pos.component.ts and product-list.component.ts |
| `ProductList` | product_list.dfy | product-list.component.ts |
| `ProductDialog` | product_dialog.dfy | product-dialog.component.ts |

How values are represented:

- Money is an `int` number of cents.
- Timestamps are an `int` passed in by the caller (`now`).
- A `decimal(18,2)` column holds amounts whose absolute value is below 10^18 cents.
- Text is `seq<char>`.
- Whitespace follows .NET's `char.IsWhiteSpace` on the server and JavaScript's `\s` on the client. The two differ in U+0085 and U+FEFF.
- The variant picker is one class with a `Screen` parameter.
  - `PointOfSale` selects the wording of pos.component.ts.
  - `ProductCatalogue` selects the wording of product-list.component.ts.
  - Everything else in the two screens is the same code.

The model follows the code as written:

- Size and colour tags are de-duplicated by exact `Distinct()`, with no trimming or case folding.
  - "Blue" and "Blue " give two variants (`VariantBuilder.ExampleTrailingSpaceIsAnotherColour`).
- Blank tags are dropped only when variants are built.
  - They are still stored as size and colour rows (`Services.SavedTags`).
- A variant SKU part is upper-cased, and each single space becomes "-".
  - Runs of whitespace are not collapsed (`VariantBuilder.ExampleDoubleSpace`).
- The client preview collapses whitespace runs in the SKU and the colour, but not in the size.
  - So the preview and the stored SKU can differ (`ProductDialog.PreviewKeepsSpaceInSize`, `ProductDialog.ServerHyphenatesSpaceInSize`).
- The update is not atomic.
  - `ExecuteDeleteAsync` commits the deletion of the old children at once.
  - If the later save fails, the product is left without sizes, colours or variants.
  - `Repositories.ProductRepository.Update` states this.
- The dialog's variant preview is recomputed only when the size or colour list is set.
  - Editing the SKU leaves the shown preview naming the old SKU until a tag changes (`ProductDialog.StalePreviewAfterSkuEdit`).
- The 150-character limit on variant SKUs can be exceeded by requests the DTO limits allow.
  - The database then refuses the save (`Services.LongVariantSkuIsRefused`).

## Model

| member | source | states |
|---|---|---|
| Lists.FirstIndex | backend/ProductManager.Application/Services/ProductService.cs:46-47 | the index found holds the element and no earlier one does |
| Lists.Distinct | backend/ProductManager.Application/Services/ProductService.cs:46-47 | the result has no duplicates and holds exactly the input's elements |
| Lists.DistinctKeepsFirstOccurrenceOrder | backend/ProductManager.Application/Services/ProductService.cs:98-99 | `Distinct()` lists elements in the order of their first occurrence |
| Lists.DistinctOfDuplicateFree | backend/ProductManager.Application/Services/ProductService.cs:98-99 | `Distinct()` of a duplicate-free list is that list |
| Lists.Filter | backend/ProductManager.Application/Services/ProductService.cs:99 | the result holds exactly the input elements that pass, and is no longer than the input |
| Lists.FilterPairwise | frontend/src/app/core/services/cart.service.ts:47 | filtering keeps any pairwise property of the kept elements, in order |
| Lists.FilterAll | frontend/src/app/core/services/cart.service.ts:47 | when every element passes, the filter keeps the whole list |
| Lists.FilterConcat | frontend/src/app/core/services/cart.service.ts:47 | filtering distributes over concatenation |
| Lists.FilterNone | frontend/src/app/core/services/cart.service.ts:47 | when no element passes, the filter leaves nothing |
| Lists.FilterOfFilter | frontend/src/app/core/services/cart.service.ts:47 | a stricter second filter sees through the first |
| Text.TrimStart | backend/ProductManager.Infrastructure/Repositories/ProductRepository.cs:25 | the result is the input without its leading whitespace and does not start with whitespace |
| Text.TrimEnd | backend/ProductManager.Infrastructure/Repositories/ProductRepository.cs:25 | the result is the input without its trailing whitespace and does not end with whitespace |
| Text.TrimEnds | backend/ProductManager.Infrastructure/Repositories/ProductRepository.cs:25 | `Trim()` leaves no whitespace at either end |
| Text.TrimRemovesOnlyWhiteSpace | frontend/src/app/features/products/product-dialog/product-dialog.component.ts:373 | the trimmed text is a slice of the input with only whitespace cut on each side |
| Text.TrimmedNonEmptyIsNotBlank | frontend/src/app/features/products/product-dialog/product-dialog.component.ts:374 | a non-empty trimmed string is not blank |
| Text.TrimNoWhiteSpace | frontend/src/app/features/products/product-dialog/product-dialog.component.ts:373 | trimming text without whitespace changes nothing |
| Text.UpperIdempotent | backend/ProductManager.Application/Services/ProductService.cs:40 | `ToUpper` keeps the length and a second application changes nothing |
| Text.UpperKeepsWhiteSpace | backend/ProductManager.Application/Services/ProductService.cs:126 | upper-casing maps whitespace to whitespace and nothing else to whitespace |
| Text.SeparatorsOnPlainText | backend/ProductManager.Application/Services/ProductService.cs:126 | neither the server's nor the preview's separator changes text without whitespace |
| Text.ReplaceSpacesRemovesSpaces | backend/ProductManager.Application/Services/ProductService.cs:126 | `Replace(" ", "-")` leaves no space and keeps the length |
| Text.NoWhiteSpaceConcat | frontend/src/app/features/products/product-dialog/product-dialog.component.ts:345 | a concatenation of whitespace-free texts is whitespace-free |
| Text.CollapseRemovesWhiteSpace | frontend/src/app/features/products/product-dialog/product-dialog.component.ts:342 | `replace(/\s+/g, '-')` leaves no whitespace |
| Text.ContainsIff | backend/ProductManager.Infrastructure/Repositories/ProductRepository.cs:26-29 | `Contains` holds exactly when the term occurs at some position |
| Text.JoinTwo | backend/ProductManager.Application/Services/ProductService.cs:136 | `string.Join` of two parts is the parts around one separator |
| Text.JoinThree | backend/ProductManager.Application/Services/ProductService.cs:136 | `string.Join` of three parts is the parts around two separators |
| Text.NatToStringDigits | frontend/src/app/core/services/cart.service.ts:18 | the decimal form of a natural number is digits only |
| Text.NatToStringInjective | frontend/src/app/core/services/cart.service.ts:18 | different natural numbers have different decimal forms |
| Text.IntToStringInjective | frontend/src/app/core/services/cart.service.ts:18 | different integers have different decimal forms |
| Text.SignMarksNegative | frontend/src/app/core/services/cart.service.ts:18 | an integer's text starts with "-" exactly when it is negative |
| Database.FilterKeepsUnique | backend/ProductManager.Infrastructure/Data/AppDbContext.cs:23 | deleting rows keeps a primary key unique |
| Database.SeedSatisfiesConstraints | backend/ProductManager.Infrastructure/Data/AppDbContext.cs:83-89 | the five seeded categories satisfy the whole schema |
| Database.WithoutChildrenKeepsConstraints | backend/ProductManager.Infrastructure/Repositories/ProductRepository.cs:76-78 | deleting a product's sizes, colours and variants keeps the schema |
| Database.DeletesKeepIdsBelow | backend/ProductManager.Infrastructure/Data/AppDbContext.cs:39-42 | deleting rows keeps every key below the identity counter |
| Database.WithoutChildrenKeepsConsistent | backend/ProductManager.Infrastructure/Repositories/ProductRepository.cs:76-78 | the child deletes keep a committed state consistent |
| Database.OtherProductSurvives | backend/ProductManager.Infrastructure/Data/AppDbContext.cs:50-53 | deleting one product leaves every other product row |
| Database.CascadeDeleteKeepsConstraints | backend/ProductManager.Infrastructure/Data/AppDbContext.cs:76-79 | a cascading product delete keeps the schema and leaves no row referring to the product |
| Database.SetNullDeleteKeepsConstraints | backend/ProductManager.Infrastructure/Data/AppDbContext.cs:39-42 | deleting a category keeps every product and clears only the references to that category |
| Database.SameProductKeys | backend/ProductManager.Infrastructure/Data/AppDbContext.cs:50-53 | child references resolve against any product table with the same keys |
| Database.Store.constructor | backend/ProductManager.Infrastructure/Data/AppDbContext.cs:83-89 | a new database holds the seeded categories and nothing else |
| Database.Store.NewIds | backend/ProductManager.Infrastructure/Repositories/Repository.cs:21-26 | drawn identity values are consecutive and above every key in use |
| Database.Store.SaveChanges | backend/ProductManager.Infrastructure/Data/AppDbContext.cs:21-80 | a save commits exactly when the candidate satisfies the schema; otherwise nothing changes |
| Database.Store.ExecuteDeleteChildren | backend/ProductManager.Infrastructure/Repositories/ProductRepository.cs:76-78 | the three deletes remove exactly the product's children and commit at once |
| VariantBuilder.NonBlank | backend/ProductManager.Application/Services/ProductService.cs:98-99 | the kept tags are exactly the input's non-blank entries |
| VariantBuilder.FindBarcodeSpec | backend/ProductManager.Application/Services/ProductService.cs:128-130 | the barcode is the first override matching the size and colour ignoring case; no match gives none |
| VariantBuilder.BuildVariants | backend/ProductManager.Application/Services/ProductService.cs:93-119 | the loops build exactly the variant list of the specification function |
| VariantBuilder.AddGrid | backend/ProductManager.Application/Services/ProductService.cs:101-106 | the nested loops append one variant per size and colour pair, sizes outer |
| VariantBuilder.AddSizesOnly | backend/ProductManager.Application/Services/ProductService.cs:107-111 | the loop appends one size-only variant per size |
| VariantBuilder.AddColorsOnly | backend/ProductManager.Application/Services/ProductService.cs:112-116 | the loop appends one colour-only variant per colour |
| VariantBuilder.ExpandSnoc | backend/ProductManager.Application/Services/ProductService.cs:105 | one more combination appends one more variant |
| VariantBuilder.GridStep | backend/ProductManager.Application/Services/ProductService.cs:101-106 | the grid for one more size is the old grid followed by that size's row |
| VariantBuilder.RowStep | backend/ProductManager.Application/Services/ProductService.cs:103-104 | the row for one more colour has one more combination |
| VariantBuilder.OneSidedStep | backend/ProductManager.Application/Services/ProductService.cs:107-116 | the one-sided combinations grow by one entry per tag |
| VariantBuilder.RowStartIsProduct | backend/ProductManager.Application/Services/ProductService.cs:101-106 | row `i` of the grid starts at `i * |colors|` |
| VariantBuilder.RowStartBound | backend/ProductManager.Application/Services/ProductService.cs:101-106 | every cell of the grid lies inside it |
| VariantBuilder.GridLength | backend/ProductManager.Application/Services/ProductService.cs:101-106 | the grid has `|sizes| * |colors|` entries |
| VariantBuilder.GridAt | backend/ProductManager.Application/Services/ProductService.cs:101-106 | size `i` with colour `j` is entry `i * |colors| + j` |
| VariantBuilder.GridMembers | backend/ProductManager.Application/Services/ProductService.cs:101-106 | every grid entry pairs a listed size with a listed colour |
| VariantBuilder.GridNoDuplicates | backend/ProductManager.Application/Services/ProductService.cs:101-106 | duplicate-free tags give a duplicate-free grid |
| VariantBuilder.CombosNoDuplicates | backend/ProductManager.Application/Services/ProductService.cs:98-116 | the combinations never repeat, for any request |
| VariantBuilder.NonBlankKeepsOrder | backend/ProductManager.Application/Services/ProductService.cs:99 | the non-blank tags keep their order and only blank tags are dropped |
| VariantBuilder.TagsSpec | backend/ProductManager.Application/Services/ProductService.cs:98-99 | the tags are the distinct non-blank entries, each once, in first-occurrence order |
| VariantBuilder.ExpandAt | backend/ProductManager.Application/Services/ProductService.cs:121-139 | the variant at each position is built from the combination at that position |
| VariantBuilder.ExpandGrid | backend/ProductManager.Application/Services/ProductService.cs:101-106 | entry `(i, j)` of the expanded grid is the variant for size `i` and colour `j` |
| VariantBuilder.VariantsBothLists | backend/ProductManager.Application/Services/ProductService.cs:101-106 | with both tag lists, the variants are their full product, sizes outer |
| VariantBuilder.VariantsCount | backend/ProductManager.Application/Services/ProductService.cs:93-119 | the variant count is the product of the tag counts, or the one non-empty count |
| VariantBuilder.VariantsOneList | backend/ProductManager.Application/Services/ProductService.cs:107-116 | with one list only, there is one variant per tag and the other attribute is null |
| VariantBuilder.VariantsFresh | backend/ProductManager.Application/Services/ProductService.cs:132-138 | every variant is new, has no stock or price adjustment, and carries its combination's SKU and barcode |
| VariantBuilder.VariantsDistinctCombos | backend/ProductManager.Application/Services/ProductService.cs:98-116 | no two variants share a size and colour |
| VariantBuilder.VariantsCoverInput | backend/ProductManager.Application/Services/ProductService.cs:101-106 | every pair of a non-blank requested size and a non-blank requested colour has its variant |
| VariantBuilder.TagsOfBlanks | backend/ProductManager.Application/Services/ProductService.cs:98-99 | a list whose entries are all blank yields no tags |
| VariantBuilder.VariantsCoverSizes | backend/ProductManager.Application/Services/ProductService.cs:107-111 | when every requested colour is blank, every non-blank requested size has its size-only variant |
| VariantBuilder.VariantsCoverColors | backend/ProductManager.Application/Services/ProductService.cs:112-116 | when every requested size is blank, every non-blank requested colour has its colour-only variant |
| VariantBuilder.SkuPartShape | backend/ProductManager.Application/Services/ProductService.cs:126 | a SKU part is the upper-cased tag with each space replaced by "-" |
| VariantBuilder.VariantSkuAllParts | backend/ProductManager.Application/Services/ProductService.cs:124-136 | with all parts present, the SKU is BASE-SIZE-COLOR |
| VariantBuilder.VariantSkuSkipsBlankParts | backend/ProductManager.Application/Services/ProductService.cs:125 | a blank or absent part adds neither text nor separator |
| VariantBuilder.VariantSkuLength | backend/ProductManager.Application/Services/ProductService.cs:124-136 | the SKU's length is the parts' lengths plus two separators |
| VariantBuilder.BarcodeMatchIgnoresCase | backend/ProductManager.Application/Services/ProductService.cs:128-130 | the override "s"/"red" gives its barcode to the variant S/Red |
| VariantBuilder.BarcodeNullMatchesOnlyNull | backend/ProductManager.Application/Services/ProductService.cs:129 | an override without a size matches only variants without a size |
| VariantBuilder.ExampleTeeShirtSku | backend/ProductManager.Application/Services/ProductService.cs:136 | TEE-001 with size S and colour Red has the SKU TEE-001-S-RED |
| VariantBuilder.ExampleTeeShirtTags | backend/ProductManager.Application/Services/ProductService.cs:98-99 | the tags of sizes S, M and colour Red are those lists as given |
| VariantBuilder.ExampleTeeShirt | backend/ProductManager.Application/Services/ProductService.cs:93-139 | TEE-001 in S and M, Red gives exactly TEE-001-S-RED and TEE-001-M-RED |
| VariantBuilder.ExampleTrailingSpaceIsAnotherColour | backend/ProductManager.Application/Services/ProductService.cs:98 | "Blue" and "Blue " give two variants |
| VariantBuilder.ExampleDoubleSpace | backend/ProductManager.Application/Services/ProductService.cs:126 | size "X  L" (two spaces) becomes the part "X--L" |
| Repositories.FindProductSpec | backend/ProductManager.Infrastructure/Repositories/Repository.cs:16 | a lookup by key finds a row with that key exactly when one exists |
| Repositories.FindProductUnique | backend/ProductManager.Infrastructure/Repositories/Repository.cs:16 | with unique keys, the lookup returns the one row with the key |
| Repositories.FindCategorySpec | backend/ProductManager.Infrastructure/Repositories/ProductRepository.cs:14 | a category lookup finds a row with that key exactly when one exists |
| Repositories.GetProductWithDetailsSpec | backend/ProductManager.Infrastructure/Repositories/ProductRepository.cs:34-35 | the loaded product is the one asked for, with its category and exactly its own children |
| Repositories.SkuExistsSpec | backend/ProductManager.Infrastructure/Repositories/ProductRepository.cs:37-42 | true exactly when a row has the upper-cased SKU and a key other than the excluded one |
| Repositories.SortedTail | backend/ProductManager.Infrastructure/Repositories/ProductRepository.cs:31 | a newest-first list stays sorted without its head |
| Repositories.SortedCons | backend/ProductManager.Infrastructure/Repositories/ProductRepository.cs:31 | a head no older than the rest keeps a newest-first list sorted |
| Repositories.InsertByCreatedSpec | backend/ProductManager.Infrastructure/Repositories/ProductRepository.cs:31 | inserting keeps the list newest first and adds exactly one entry |
| Repositories.SortByCreatedDescSpec | backend/ProductManager.Infrastructure/Repositories/ProductRepository.cs:31 | `OrderByDescending(CreatedAt)` is newest first and a permutation |
| Repositories.GetProductsWithDetailsSpec | backend/ProductManager.Infrastructure/Repositories/ProductRepository.cs:20-32 | the listing is newest first, and a blank or absent search lists every product |
| Repositories.GetProductsWithDetailsMatches | backend/ProductManager.Infrastructure/Repositories/ProductRepository.cs:23-29 | any other search lists exactly the products whose lower-cased name, SKU or category name contains the trimmed, lower-cased term |
| Repositories.NumberChildrenCopies | backend/ProductManager.Infrastructure/Repositories/ProductRepository.cs:48-69 | the snapshot copies every child column but the keys, in order |
| Repositories.NumberChildrenFits | backend/ProductManager.Infrastructure/Repositories/ProductRepository.cs:89-91 | re-keying children never changes whether they fit their columns |
| Repositories.UniqueAppend | backend/ProductManager.Infrastructure/Repositories/Repository.cs:23-24 | rows keyed from `lo` appended below-`lo` keys keep keys unique |
| Repositories.InsertedIdsBelow | backend/ProductManager.Infrastructure/Repositories/Repository.cs:23-24 | a new product's rows take keys above those in use, and the counter moves past them |
| Repositories.InsertedKeysUnique | backend/ProductManager.Infrastructure/Repositories/Repository.cs:23-24 | an insert keeps every primary key unique |
| Repositories.AppendSkusUnique | backend/ProductManager.Infrastructure/Data/AppDbContext.cs:34 | the unique SKU index holds after an append exactly when no row had the SKU |
| Repositories.InsertedReferences | backend/ProductManager.Infrastructure/Data/AppDbContext.cs:39-42 | the references resolve after an insert exactly when the new product's category does |
| Repositories.InsertedRowsFit | backend/ProductManager.Infrastructure/Data/AppDbContext.cs:29-80 | the tables fit their columns after an insert exactly when the old and the new rows do |
| Repositories.InsertedConstraints | backend/ProductManager.Infrastructure/Repositories/Repository.cs:21-26 | an insert satisfies the schema exactly when the rows fit, the SKU is free and the category resolves |
| Repositories.FilterFresh | backend/ProductManager.Infrastructure/Repositories/ProductRepository.cs:12-18 | a new key's children are exactly the appended ones |
| Repositories.NoChildOfFreshKey | backend/ProductManager.Infrastructure/Repositories/Repository.cs:23-24 | no committed child row points at a key not yet issued |
| Repositories.AddThenGet | backend/ProductManager.Infrastructure/Repositories/Repository.cs:21-26 | a saved product reads back with its category and exactly its numbered children |
| Repositories.AddKeepsOthers | backend/ProductManager.Infrastructure/Repositories/Repository.cs:21-26 | an insert leaves every other product reading back as before |
| Repositories.FilterKeepsOld | backend/ProductManager.Infrastructure/Repositories/ProductRepository.cs:12-18 | appended rows of another product leave a child load unchanged |
| Repositories.FindProductAppend | backend/ProductManager.Infrastructure/Repositories/Repository.cs:16 | an appended row with another key leaves a lookup unchanged |
| Repositories.ReplaceRowKeys | backend/ProductManager.Infrastructure/Repositories/ProductRepository.cs:86 | overwriting a row by key keeps every key in its place |
| Repositories.ReplaceRowSkus | backend/ProductManager.Infrastructure/Data/AppDbContext.cs:34 | the unique SKU index survives an overwrite exactly when no other product has the SKU |
| Repositories.ReplacedRowsFit | backend/ProductManager.Infrastructure/Repositories/ProductRepository.cs:86-93 | after the update, the tables fit their columns exactly when the new rows do |
| Repositories.ReplacedIdsBelow | backend/ProductManager.Infrastructure/Repositories/ProductRepository.cs:89-93 | the update's new children take keys above those in use; the product keeps its key |
| Repositories.AppendedIdsBelow | backend/ProductManager.Infrastructure/Repositories/ProductRepository.cs:89-91 | appending children keyed below the counter keeps every key below it |
| Repositories.ReplacedKeysUnique | backend/ProductManager.Infrastructure/Repositories/ProductRepository.cs:86-93 | the update keeps every primary key unique |
| Repositories.ReplacedReferences | backend/ProductManager.Infrastructure/Repositories/ProductRepository.cs:86-93 | the references resolve after the update exactly when the new category does |
| Repositories.ReplacedChildrenResolve | backend/ProductManager.Infrastructure/Repositories/ProductRepository.cs:89-91 | old children still point at their products, and new ones at the updated row |
| Repositories.ReplacedCategoriesResolve | backend/ProductManager.Infrastructure/Repositories/ProductRepository.cs:86 | every category reference resolves after the overwrite exactly when the new row's does |
| Repositories.UpdatedConstraints | backend/ProductManager.Infrastructure/Repositories/ProductRepository.cs:86-93 | the update's save satisfies the schema exactly when the rows fit, no other product has the SKU and the category resolves |
| Repositories.FindProductReplace | backend/ProductManager.Infrastructure/Repositories/Repository.cs:16 | overwriting a row with another key leaves a lookup unchanged |
| Repositories.FindProductReplaced | backend/ProductManager.Infrastructure/Repositories/ProductRepository.cs:86 | looking up the overwritten key finds the new row |
| Repositories.ChildrenReplaced | backend/ProductManager.Infrastructure/Repositories/ProductRepository.cs:76-91 | after the update, the product's children are exactly the new ones |
| Repositories.UpdateThenGet | backend/ProductManager.Infrastructure/Repositories/ProductRepository.cs:45-100 | an updated product reads back with its new row, its category and only its new children |
| Repositories.UpdateKeepsOthers | backend/ProductManager.Infrastructure/Repositories/ProductRepository.cs:45-100 | an update leaves every other product reading back as before |
| Repositories.ProductRepository.constructor | backend/ProductManager.Infrastructure/Repositories/ProductRepository.cs:10 | the repository works over the given database |
| Repositories.ProductRepository.Add | backend/ProductManager.Infrastructure/Repositories/Repository.cs:21-26 | inserts the product with fresh keys, succeeds exactly when the schema allows, and otherwise changes nothing |
| Repositories.ProductRepository.Update | backend/ProductManager.Infrastructure/Repositories/ProductRepository.cs:45-100 | deletes the old children first; then the overwrite with fresh copies of the new children commits exactly when the schema allows; a failed save leaves the children deleted |
| Repositories.ProductRepository.Delete | backend/ProductManager.Infrastructure/Repositories/Repository.cs:34-38 | removes the product and its children by cascade; a missing row fails and changes nothing |
| Services.GetProductsSpec | backend/ProductManager.Application/Services/ProductService.cs:18-19 | responses are newest first; for a blank or absent search there is one per product, every response is some product's `ToDto`, and every product's `ToDto` is listed |
| Services.GetProductsMatches | backend/ProductManager.Application/Services/ProductService.cs:18-19 | for any other search, the responses are exactly the `ToDto` of the products whose lower-cased name, SKU or category name contains the trimmed, lower-cased term |
| Services.GetProductByIdSpec | backend/ProductManager.Application/Services/ProductService.cs:21-25 | a response exists exactly when the product does, and carries its id |
| Services.SavedTags | backend/ProductManager.Application/Services/ProductService.cs:46-47 | the saved tags are `Distinct()` of the request, blanks kept, together with the requested category's name |
| Services.SavedVariants | backend/ProductManager.Application/Services/ProductService.cs:48 | the saved variants are the builder's, in order, with their SKUs and barcodes and no stock |
| Services.SkuCheckIsIndex | backend/ProductManager.Application/Services/ProductService.cs:29-30 | the service's SKU check is the unique index's condition on the stored, upper-cased SKU |
| Services.CreateReadsBack | backend/ProductManager.Application/Services/ProductService.cs:51-52 | after a create, the new key reads back as the response, and every other key as before |
| Services.UpdateReadsBack | backend/ProductManager.Application/Services/ProductService.cs:80-81 | after an update, the key reads back as the response, and every other key as before |
| Services.ProductService.constructor | backend/ProductManager.Application/Services/ProductService.cs:12-16 | the service works over the given repository |
| Services.ProductService.CreateProduct | backend/ProductManager.Application/Services/ProductService.cs:27-53 | a taken SKU fails before any write; otherwise it succeeds exactly when the rows fit and the category resolves, and the response reads back |
| Services.ProductService.UpdateProduct | backend/ProductManager.Application/Services/ProductService.cs:55-82 | a missing product, then a SKU another product holds, fail with no change; otherwise the product is saved as edited |
| Services.ProductService.SaveEdited | backend/ProductManager.Application/Services/ProductService.cs:64-81 | the loaded row is rewritten from the request with its key and creation time kept, and saved with the new children |
| Services.ProductService.DeleteProduct | backend/ProductManager.Application/Services/ProductService.cs:84-89 | a missing product fails with no change; otherwise the product and its children are gone |
| Services.LongVariantSkuIsRefused | backend/ProductManager.Infrastructure/Data/AppDbContext.cs:71 | a 100-character SKU with 25-character tags builds a 152-character variant SKU, which the column refuses |
| Cart.FindLine | frontend/src/app/core/services/cart.service.ts:20 | the index of the first line with the id, or -1 when there is none |
| Cart.CartService.constructor | frontend/src/app/core/services/cart.service.ts:56-63 | the cart starts from the lines restored from the session |
| Cart.CartService.Add | frontend/src/app/core/services/cart.service.ts:17-38 | the lines become `Added(...)` and stay unique and keyed |
| Cart.CartService.SetQuantity | frontend/src/app/core/services/cart.service.ts:40-44 | a quantity of zero or less removes the line; otherwise only that line's quantity changes |
| Cart.CartService.Remove | frontend/src/app/core/services/cart.service.ts:46-49 | the lines become those with another id |
| Cart.CartService.Clear | frontend/src/app/core/services/cart.service.ts:51-54 | the cart becomes empty |
| Cart.AddedSpec | frontend/src/app/core/services/cart.service.ts:17-38 | an existing key raises that line in place and changes nothing else; a new key appends a fresh line |
| Cart.AddedKeepsKeys | frontend/src/app/core/services/cart.service.ts:17-38 | `add` keeps the ids unique and each the key of its product and variant |
| Cart.RaisedKeepsKeys | frontend/src/app/core/services/cart.service.ts:21-25 | raising a quantity keeps the ids unique and keyed |
| Cart.AppendedKeepsKeys | frontend/src/app/core/services/cart.service.ts:26-35 | appending a line with a new, correct key keeps the ids unique and keyed |
| Cart.WithQuantitySpec | frontend/src/app/core/services/cart.service.ts:42 | a positive quantity changes only the matching line's quantity |
| Cart.QuantitySetAbsent | frontend/src/app/core/services/cart.service.ts:40-44 | setting the quantity of an absent id changes nothing |
| Cart.RemovedSpec | frontend/src/app/core/services/cart.service.ts:47 | `remove` leaves no line with the id and keeps every other line, in order |
| Cart.RemovedAt | frontend/src/app/core/services/cart.service.ts:47 | removing a unique line leaves the lines before and after it, joined |
| Cart.CartKeyInjective | frontend/src/app/core/services/cart.service.ts:18 | different product/variant pairs with non-negative ids have different keys |
| Cart.AddedLeavesOtherPairs | frontend/src/app/core/services/cart.service.ts:17-38 | adding one pair never touches a line of another pair |
| Cart.FindLineAt | frontend/src/app/core/services/cart.service.ts:20 | `findIndex` finds the first line with the id |
| Cart.CountUpdate | frontend/src/app/core/services/cart.service.ts:10 | replacing one line changes `count` by the difference of the quantities |
| Cart.CountAppend | frontend/src/app/core/services/cart.service.ts:10-15 | an appended line adds its quantity to `count` and its amount to `total` |
| Cart.AddedTotals | frontend/src/app/core/services/cart.service.ts:10-38 | `add` raises `count` by the quantity and `total` by the quantity times the line's unit price |
| Cart.AppendedTotals | frontend/src/app/core/services/cart.service.ts:26-35 | a new line adds its quantity and its amount |
| Cart.RaisedTotals | frontend/src/app/core/services/cart.service.ts:21-25 | raising the first line with an id adds the raise and the raise's amount |
| Cart.RaisedAmount | frontend/src/app/core/services/cart.service.ts:12-15 | a raised line's amount grows by the raise times its unit price |
| Cart.RemovedTotals | frontend/src/app/core/services/cart.service.ts:46-49 | the kept and removed lines split `count` and `total` between them |
| Cart.WithQuantityCount | frontend/src/app/core/services/cart.service.ts:42 | with unique ids, a positive quantity moves `count` from the old quantity to the new one |
| Toasts.ToastService.constructor | frontend/src/app/core/services/toast.service.ts:11-12 | no toasts and the counter at 0 |
| Toasts.ToastService.Show | frontend/src/app/core/services/toast.service.ts:14-18 | the counter goes up by one and a toast with that id is appended |
| Toasts.ToastService.Dismiss | frontend/src/app/core/services/toast.service.ts:20-22 | the toasts become those with another id |
| Toasts.ToastService.Success | frontend/src/app/core/services/toast.service.ts:24 | shows a success toast |
| Toasts.ToastService.Error | frontend/src/app/core/services/toast.service.ts:25 | shows an error toast |
| Toasts.ToastService.Info | frontend/src/app/core/services/toast.service.ts:26 | shows an info toast |
| Toasts.ShownKeepsOrder | frontend/src/app/core/services/toast.service.ts:15-16 | a toast numbered past the counter keeps the ids increasing |
| Toasts.DismissedSpec | frontend/src/app/core/services/toast.service.ts:21 | `dismiss` leaves no toast with the id, keeps the rest, and changes nothing for an absent id |
| Toasts.DismissedKeepsOrder | frontend/src/app/core/services/toast.service.ts:21 | dismissing keeps the ids increasing and within the counter |
| Toasts.DismissedAt | frontend/src/app/core/services/toast.service.ts:21 | dismissing the toast at a position removes exactly that toast |
| Toasts.ShowThenDismiss | frontend/src/app/core/services/toast.service.ts:14-22 | showing a toast and dismissing it restores the list |
| Display.ApiOriginSpec | frontend/src/app/features/pos/pos.component.ts:452-456 | the origin is the API base with one trailing "/api" removed, if present |
| Display.ResolveImageUrlSpec | frontend/src/app/features/pos/pos.component.ts:452-456 | empty for a missing or empty URL; the URL itself when it starts with "http"; otherwise the origin followed by the URL |
| Display.ResolveImageUrlIdempotent | frontend/src/app/features/products/product-list/product-list.component.ts:470-475 | with an "http" API base, resolving twice is resolving once |
| Display.VariantLabelCases | frontend/src/app/features/products/product-list/product-list.component.ts:466-468 | both labels join the present size and colour; the toast label falls back to the SKU |
| Display.ToastLabelEmpty | frontend/src/app/features/products/product-list/product-list.component.ts:480-482 | the toast label is empty only when size, colour and SKU all are |
| Display.VariantCellSpec | frontend/src/app/features/products/product-list/product-list.component.ts:160-173 | a dash exactly when there are no variants, else up to four labels and a badge counting the rest |
| Display.TotalVariantsConcat | frontend/src/app/features/products/product-list/product-list.component.ts:390-392 | the total over joined lists is the sum of the totals |
| Display.TotalVariantsBounds | frontend/src/app/features/products/product-list/product-list.component.ts:390-392 | the total is at least each product's count, and 0 exactly when no product has variants |
| Header.PageTitleRanking | frontend/src/app/layout/header/header.component.ts:187-192 | the title is "Products" exactly when "products" occurs in the URL, "Categories" exactly when only "categories" does, and "Point of Sale" exactly when neither does |
| Header.ProductsRouteIsCatalogue | frontend/src/app/layout/header/header.component.ts:187-192 | every URL under "/products" gets the catalogue title, whatever follows |
| Header.CategoriesRouteIsCategories | frontend/src/app/layout/header/header.component.ts:187-192 | a URL under "/categories" without "products" in it gets the categories title |
| Header.SubtitleMatchesTitle | frontend/src/app/layout/header/header.component.ts:194-199 | the subtitle always belongs with the title |
| Header.NoUrlIsPointOfSale | frontend/src/app/layout/header/header.component.ts:187-199 | without a URL, the header shows the point-of-sale title and subtitle |
| Header.SmallCountDigits | frontend/src/app/layout/header/header.component.ts:38 | counts from 1 to 99 print as one or two digits |
| Header.CartBadgeSpec | frontend/src/app/layout/header/header.component.ts:37-39 | a badge exactly when the count is positive, never longer than three characters, and distinct up to 99 |
| Header.CartBadgeInjective | frontend/src/app/layout/header/header.component.ts:37-39 | two counts from 1 to 99 with the same badge are equal |
| VariantPicker.FindVariant | frontend/src/app/features/pos/pos.component.ts:440 | the first variant with the id, or none when no variant has it |
| VariantPicker.Picker.constructor | frontend/src/app/features/pos/pos.component.ts:397-399 | the picker starts closed, with no selection and quantity 1 |
| VariantPicker.Picker.StartAddToCart | frontend/src/app/features/pos/pos.component.ts:420-428 | a product without variants shows an error toast and leaves the picker as it was; otherwise the picker opens on it with no selection and quantity 1 |
| VariantPicker.Picker.SelectVariant | frontend/src/app/features/pos/pos.component.ts:306 | the clicked variant becomes the selection |
| VariantPicker.Picker.Decrement | frontend/src/app/features/pos/pos.component.ts:346-350 | lowers the quantity by one, but never below one |
| VariantPicker.Picker.Increment | frontend/src/app/features/pos/pos.component.ts:357 | raises the quantity by one |
| VariantPicker.Picker.CancelVariantPick | frontend/src/app/features/pos/pos.component.ts:430-434 | closes the picker and resets the selection and quantity |
| VariantPicker.Picker.ConfirmAddToCart | frontend/src/app/features/pos/pos.component.ts:436-446 | without a chosen variant nothing changes; otherwise the cart gets the quantity of that variant, a success toast is shown and the picker closes |
| ProductList.ProductListComponent.constructor | frontend/src/app/features/products/product-list/product-list.component.ts:380-388 | an empty table waiting for its first load, with the dialog closed |
| ProductList.ProductListComponent.Load | frontend/src/app/features/products/product-list/product-list.component.ts:412-418 | marks the table as loading and requests the given search text |
| ProductList.ProductListComponent.Loaded | frontend/src/app/features/products/product-list/product-list.component.ts:414-415 | the loaded products replace the table, and loading ends |
| ProductList.ProductListComponent.LoadFailed | frontend/src/app/features/products/product-list/product-list.component.ts:416-417 | keeps the old table, ends loading and shows an error toast; the dialog state and the search text are unchanged |
| ProductList.ProductListComponent.OpenDialog | frontend/src/app/features/products/product-list/product-list.component.ts:421 | opens the dialog for a new product |
| ProductList.ProductListComponent.EditProduct | frontend/src/app/features/products/product-list/product-list.component.ts:422 | opens the dialog on the given product |
| ProductList.ProductListComponent.CloseDialog | frontend/src/app/features/products/product-list/product-list.component.ts:423 | closes the dialog and keeps the product it was editing |
| ProductList.ProductListComponent.OnSaved | frontend/src/app/features/products/product-list/product-list.component.ts:424 | closes the dialog and reloads with the current search text |
| ProductDialog.ProductDialogComponent.constructor | frontend/src/app/features/products/product-dialog/product-dialog.component.ts:339-368 | the form and the tag lists start from the edited product, or empty for a new one; the shown preview is computed from them; no image is selected and the invariant holds |
| ProductDialog.ProductDialogComponent.EditForm | frontend/src/app/features/products/product-dialog/product-dialog.component.ts:61-104 | editing the form's fields changes only the form; the shown preview keeps the SKU it was computed with |
| ProductDialog.ProductDialogComponent.AddSize | frontend/src/app/features/products/product-dialog/product-dialog.component.ts:372-376 | adds the trimmed input when it is non-empty and new, then clears the input; an added size recomputes the preview from the current form; the colours, their input, the form; `touched`, `saving` and the image fields are unchanged |
| ProductDialog.ProductDialogComponent.RemoveSize | frontend/src/app/features/products/product-dialog/product-dialog.component.ts:378 | drops every size equal to the given one and recomputes the preview; both inputs, the colours, the form; `touched`, `saving` and the image fields are unchanged |
| ProductDialog.ProductDialogComponent.AddColor | frontend/src/app/features/products/product-dialog/product-dialog.component.ts:380-384 | adds the trimmed input when it is non-empty and new, then clears the input; an added colour recomputes the preview from the current form; the sizes, their input, the form; `touched`, `saving` and the image fields are unchanged |
| ProductDialog.ProductDialogComponent.RemoveColor | frontend/src/app/features/products/product-dialog/product-dialog.component.ts:386 | drops every colour equal to the given one and recomputes the preview; both inputs, the sizes, the form; `touched`, `saving` and the image fields are unchanged |
| ProductDialog.ProductDialogComponent.Submit | frontend/src/app/features/products/product-dialog/product-dialog.component.ts:390-406 | an invalid form only marks its fields touched; otherwise saving starts, uploading first when a file is selected and otherwise sending the request; a file it uploads is always one the image checks accepted, and the component invariant is kept; the form, tags, inputs, preview and image fields are unchanged |
| ProductDialog.ProductDialogComponent.UploadSucceeded | frontend/src/app/features/products/product-dialog/product-dialog.component.ts:397-399 | the request goes out with the uploaded image's URL as its image |
| ProductDialog.ProductDialogComponent.UploadFailed | frontend/src/app/features/products/product-dialog/product-dialog.component.ts:400-401 | saving stops and the server's message, or a default, is shown; the form, tags, inputs, preview, `touched` and image fields are unchanged |
| ProductDialog.ProductDialogComponent.SaveSucceeded | frontend/src/app/features/products/product-dialog/product-dialog.component.ts:422-426 | saving stops and a success toast says whether the product was created or updated; the form, tags, inputs, preview, `touched` and image fields are unchanged |
| ProductDialog.ProductDialogComponent.SaveFailed | frontend/src/app/features/products/product-dialog/product-dialog.component.ts:427-431 | saving stops and the server's message, or a default, is shown; the form, tags, inputs, preview, `touched` and image fields are unchanged |
| ProductDialog.ProductDialogComponent.OnImageSelected | frontend/src/app/features/products/product-dialog/product-dialog.component.ts:442-473 | an accepted file is selected; a wrong type or a file over 5 MiB shows an error and keeps the previous selection; no file does nothing; the invariant that a selected file passes the image checks is kept; the form, tags, inputs, preview, `saving`, `touched` and the image preview are unchanged |
| ProductDialog.ProductDialogComponent.ImageRead | frontend/src/app/features/products/product-dialog/product-dialog.component.ts:465-469 | the file reader's data URL becomes the image preview, and nothing else changes |
| ProductDialog.ProductDialogComponent.ClearImage | frontend/src/app/features/products/product-dialog/product-dialog.component.ts:475-479 | the selected file, the preview and the file name are cleared; the form, including its image URL, is unchanged, so a later submit still sends that URL; the tags, inputs, preview, `saving` and `touched` are unchanged |
| ProductDialog.AddTagSpec | frontend/src/app/features/products/product-dialog/product-dialog.component.ts:372-376 | appends the trimmed input exactly when it is non-empty and not listed; a clean list stays clean |
| ProductDialog.RemoveTagSpec | frontend/src/app/features/products/product-dialog/product-dialog.component.ts:378 | drops every equal entry, keeps the rest in order, and keeps a clean list clean |
| ProductDialog.AddThenRemove | frontend/src/app/features/products/product-dialog/product-dialog.component.ts:372-378 | removing a tag just added restores the list |
| ProductDialog.PreviewGridIsGrid | frontend/src/app/features/products/product-dialog/product-dialog.component.ts:344-345 | the grid preview follows the server's combination order, one string each |
| ProductDialog.PreviewIsCombos | frontend/src/app/features/products/product-dialog/product-dialog.component.ts:339-349 | the preview is each combination's preview string, in the server's order |
| ProductDialog.SizePreviewsAreCombos | frontend/src/app/features/products/product-dialog/product-dialog.component.ts:346-347 | the sizes-only preview is that of the size-only combinations |
| ProductDialog.ColorPreviewsAreCombos | frontend/src/app/features/products/product-dialog/product-dialog.component.ts:348 | the colours-only preview is that of the colour-only combinations |
| ProductDialog.PreviewPairs | frontend/src/app/features/products/product-dialog/product-dialog.component.ts:344-345 | with sizes and colours, the preview lists every pair, sizes outer |
| ProductDialog.PreviewGridShape | frontend/src/app/features/products/product-dialog/product-dialog.component.ts:345 | the grid preview lists every pair, sizes outer |
| ProductDialog.PreviewGridLength | frontend/src/app/features/products/product-dialog/product-dialog.component.ts:345 | the grid preview has `|sizes| * |colors|` entries |
| ProductDialog.PreviewGridAt | frontend/src/app/features/products/product-dialog/product-dialog.component.ts:345 | size `i` with colour `j` is at cell `(i, j)` |
| ProductDialog.PlainParts | frontend/src/app/features/products/product-dialog/product-dialog.component.ts:342 | text without whitespace passes both separators, and case mapping keeps it without whitespace |
| ProductDialog.PlainPartIfPresent | frontend/src/app/features/products/product-dialog/product-dialog.component.ts:345 | a plain tag gives the server the part the preview shows |
| ProductDialog.ComboSkuAgrees | frontend/src/app/features/products/product-dialog/product-dialog.component.ts:345 | for plain text, a combination's preview is the SKU the server builds for it |
| ProductDialog.ComboSkuFromBase | frontend/src/app/features/products/product-dialog/product-dialog.component.ts:342 | on a base the server keeps as one part, the preview is the variant's SKU |
| ProductDialog.NonBlankKeepsAll | frontend/src/app/features/products/product-dialog/product-dialog.component.ts:374 | a list without blanks passes the server's non-blank filter whole |
| ProductDialog.PlainTagsKept | frontend/src/app/features/products/product-dialog/product-dialog.component.ts:374 | a clean tag list passes the server's de-duplication and blank filter whole |
| ProductDialog.CombosArePlain | frontend/src/app/features/products/product-dialog/product-dialog.component.ts:344-348 | every combination of plain tags has plain parts |
| ProductDialog.PreviewMatchesServer | frontend/src/app/features/products/product-dialog/product-dialog.component.ts:339-349 | for a SKU and tags without whitespace, the preview is exactly the server's variant SKUs, in order |
| ProductDialog.ExampleSkuPreviews | frontend/src/app/features/products/product-dialog/product-dialog.component.ts:339-347 | size "S" previews as "TEE-S" on SKU "TEE" and as "POLO-S" on SKU "POLO" |
| ProductDialog.StalePreviewAfterSkuEdit | frontend/src/app/features/products/product-dialog/product-dialog.component.ts:339-342 | a product with SKU "TEE" and size "S", edited to SKU "POLO", still shows "TEE-S" while its form gives "POLO-S" |
| ProductDialog.PreviewKeepsSpaceInSize | frontend/src/app/features/products/product-dialog/product-dialog.component.ts:347 | size "X L" on base "TEE" previews as "TEE-X L" |
| ProductDialog.ServerHyphenatesSpaceInSize | backend/ProductManager.Application/Services/ProductService.cs:126 | the server stores "TEE-X-L" for that request |
| ProductDialog.PayloadSpec | frontend/src/app/features/products/product-dialog/product-dialog.component.ts:409-415 | the request carries the upper-cased SKU as the server stores it, and the tag lists as they are |
| ProductDialog.ValidFormFitsColumns | frontend/src/app/features/products/product-dialog/product-dialog.component.ts:354-359 | a valid form's name and SKU fit their database columns |

## Left out

- Session storage: the cart constructor takes the restored lines, and `persist` is not modelled (cart.service.ts:56-67); JSON parsing and browser storage are I/O.
- The toast auto-dismiss timer (toast.service.ts:17): a clock. `Dismiss` is the operation the timer would call.
- HTTP: the list load, the upload and the create/update requests are split into a method that issues the request and methods for its success and its failure.
- The point-of-sale screen's `load` and `checkout` (pos.component.ts:412-418, 448-450): the load is the same as the product list's, and checkout only shows a toast.
- The product list's `confirmDelete` (product-list.component.ts:458-464): a browser `confirm` dialog followed by an HTTP call.
- The event-bus effect (product-list.component.ts:394-399; header.component.ts:210-212): cross-component messaging.
- The search box's debounce: a timer.
- The dialog's category list load (product-dialog.component.ts:367): HTTP.
- The FileReader image preview (product-dialog.component.ts:465-469): reading the file is asynchronous browser I/O. `OnImageSelected` does not set the preview; `ImageRead` is the reader's completion. Clearing the file input (line 472) is DOM state.
- The dialog's `saved` output event (product-dialog.component.ts:425): the list's handler is modelled as `ProductList.ProductListComponent.OnSaved`.
- Angular's template rendering: disabled states are modelled only where the component code relies on them (the "-" stepper).
- Entity Framework's change tracker, detaching entities, `Include` / `AsSplitQuery` and `AsNoTracking`: the model works on table contents.
- Concurrency between requests: each operation is one atomic step over the store, except for the two commits of the update.
- SQL Server collation: text comparisons (the SKU check, the unique index, `Contains`) use exact character equality, not the database's case-insensitive collation.
- Identity columns: one counter issues keys for all tables, where SQL Server keeps one per table. The model does not depend on the key values, only on their freshness.
- Floating point and `decimal`: money is whole cents.
- Culture-sensitive casing: `ToUpper`, `ToLower` and `toUpperCase` map the ASCII letters only. The barcode match's `StringComparison.OrdinalIgnoreCase` (ProductService.cs:129-130) is likewise modelled as equality after ASCII upper-casing.
- String lengths count code points, not UTF-16 units.
- Timestamps: BaseEntity.cs is not part of this model. `CreatedAt` and `UpdatedAt` come from a `now` parameter.
- The request DTOs in Dtos.cs declare no variant barcode list and no variant barcode. ProductService.cs reads both, and the model follows ProductService.cs, with the barcode overrides as a field of the request.
- Category and other controllers, and the category service: outside the product core. The category delete rule (`SetNull`) is modelled as `Database.SetNullDelete` and its lemma only.
- Null size and colour entries: the request's `Sizes` and `Colors` are `List<string>` whose elements nothing validates (Dtos.cs:44-45, 66-67), but the model's tag lists are `seq<string>` with no null entry, and a null list is not modelled either. In the source the builder drops a null tag (ProductService.cs:98-99), while `Distinct()` still stores it as a size or colour row (ProductService.cs:46-47, 76-77); that column is `IsRequired` (AppDbContext.cs:49, 60), so the save fails.
- Cart.CartKeyInjective: holds only for non-negative ids. With negative ids, "-" inside the numbers makes keys ambiguous; the database only issues positive keys.
- VariantPicker.Picker.ConfirmAddToCart: accepts a selected variant id of 0. The template disables the confirm button for a falsy id (pos.component.ts:366); the method itself only tests for null.
- ProductDialog.ProductDialogComponent.Submit: one `touched` flag stands for marking every field touched.
