/**
 * Variant generation of the product service (ProductService.cs, `BuildVariants` and
 * `NewVariant`): the size and colour lists are reduced to their distinct non-blank
 * entries, combined (size x colour, sizes only, colours only, or nothing), and each
 * combination becomes an unsaved variant row with a synthesised SKU and an optional
 * barcode taken from the override list.
 */
module VariantBuilder {

  import opened Wrappers
  import opened Text
  import opened Lists
  import opened Entities

  /** A barcode override for one size/colour combination (`VariantBarcodeDto`). */
  datatype VariantBarcode = VariantBarcode(size: Option<string>, color: Option<string>, barcode: Option<string>)

  /** One size/colour combination; an absent part is `None` (C# `null`). */
  datatype Combo = Combo(size: Option<string>, color: Option<string>)

  // ---------------------------------------------------------------------------
  // Tag lists
  // ---------------------------------------------------------------------------

  /**
   * `.Where(s => !string.IsNullOrWhiteSpace(s))` over a list of non-null strings;
   * the model's tag lists have no null entries.
   */
  function NonBlank(xs: seq<string>): (r: seq<string>)
    ensures forall i :: 0 <= i < |r| ==> r[i] in xs && !IsBlank(DotNet, r[i])
    ensures forall i :: 0 <= i < |xs| && !IsBlank(DotNet, xs[i]) ==> xs[i] in r
    ensures NoDuplicates(xs) ==> NoDuplicates(r)
    decreases |xs|
  {
    if xs == [] then []
    else
      var p := xs[..|xs| - 1];
      var x := xs[|xs| - 1];
      var r := NonBlank(p);
      assert forall i :: 0 <= i < |xs| - 1 ==> xs[i] == p[i];
      assert NoDuplicates(xs) ==> NoDuplicates(p) && x !in p;
      if IsBlank(DotNet, x) then r else r + [x]
  }

  /** The entries that take part in variant generation: `xs.Distinct().Where(non-blank)`. */
  function Tags(xs: seq<string>): seq<string> {
    NonBlank(Distinct(xs))
  }

  // ---------------------------------------------------------------------------
  // One variant
  // ---------------------------------------------------------------------------

  /** How one part enters a variant SKU: `p.ToUpper().Replace(" ", "-")`. */
  function SkuPart(p: string): string {
    ReplaceSpaces(Upper(p))
  }

  /** The part for an optional value: none when it is null or whitespace only. */
  function PartIfPresent(p: Option<string>): seq<string> {
    if IsNullOrWhiteSpace(p) then [] else [SkuPart(p.value)]
  }

  /** The SKU of a variant: the present parts of [baseSku, size, color] joined with "-". */
  function VariantSku(baseSku: string, size: Option<string>, color: Option<string>): string {
    Join("-", PartIfPresent(Some(baseSku)) + PartIfPresent(size) + PartIfPresent(color))
  }

  /** `string.Equals(a, b, StringComparison.OrdinalIgnoreCase)`: null equals only null. */
  predicate EqualsIgnoreCase(a: Option<string>, b: Option<string>) {
    match (a, b)
    case (None, None) => true
    case (Some(x), Some(y)) => Upper(x) == Upper(y)
    case _ => false
  }

  /** The override applies to this size/colour combination. */
  predicate Matches(b: VariantBarcode, size: Option<string>, color: Option<string>) {
    EqualsIgnoreCase(b.size, size) && EqualsIgnoreCase(b.color, color)
  }

  /** `barcodes.FirstOrDefault(b => Matches(b, size, color))?.Barcode`. */
  function FindBarcode(barcodes: seq<VariantBarcode>, size: Option<string>, color: Option<string>): Option<string>
    decreases |barcodes|
  {
    if barcodes == [] then None
    else if Matches(barcodes[0], size, color) then barcodes[0].barcode
    else FindBarcode(barcodes[1..], size, color)
  }

  /** The barcode comes from the first matching override; without a match there is none. */
  lemma {:induction false} FindBarcodeSpec(barcodes: seq<VariantBarcode>, size: Option<string>, color: Option<string>)
    ensures (forall i :: 0 <= i < |barcodes| ==> !Matches(barcodes[i], size, color)) ==> FindBarcode(barcodes, size, color) == None
    ensures forall k :: (0 <= k < |barcodes| && Matches(barcodes[k], size, color)
                         && forall i :: 0 <= i < k ==> !Matches(barcodes[i], size, color))
                        ==> FindBarcode(barcodes, size, color) == barcodes[k].barcode
    decreases |barcodes|
  {
    if barcodes != [] && !Matches(barcodes[0], size, color) {
      var tail := barcodes[1..];
      FindBarcodeSpec(tail, size, color);
      forall i | 1 <= i < |barcodes| ensures barcodes[i] == tail[i - 1] {}
    }
  }

  /** `NewVariant`: an unsaved variant row (Id and ProductId 0, Stock 0, no price adjustment). */
  function NewVariant(baseSku: string, size: Option<string>, color: Option<string>, barcodes: seq<VariantBarcode>): ProductVariant {
    ProductVariant(0, 0, size, color, VariantSku(baseSku, size, color), FindBarcode(barcodes, size, color), None, 0)
  }

  // ---------------------------------------------------------------------------
  // The combinations, as a reference definition
  // ---------------------------------------------------------------------------

  /** One size paired with every colour, in colour order. */
  function Row(size: string, colors: seq<string>): seq<Combo> {
    seq(|colors|, j requires 0 <= j < |colors| => Combo(Some(size), Some(colors[j])))
  }

  /** The full size x colour product, sizes outer and colours inner. */
  function Grid(sizes: seq<string>, colors: seq<string>): seq<Combo>
    decreases |sizes|
  {
    if sizes == [] then [] else Grid(sizes[..|sizes| - 1], colors) + Row(sizes[|sizes| - 1], colors)
  }

  /** One combination per size, with no colour. */
  function SizesOnly(sizes: seq<string>): seq<Combo> {
    seq(|sizes|, i requires 0 <= i < |sizes| => Combo(Some(sizes[i]), None))
  }

  /** One combination per colour, with no size. */
  function ColorsOnly(colors: seq<string>): seq<Combo> {
    seq(|colors|, i requires 0 <= i < |colors| => Combo(None, Some(colors[i])))
  }

  /** The combinations the source generates for distinct, non-blank size and colour lists. */
  function Combos(sizes: seq<string>, colors: seq<string>): seq<Combo> {
    if |sizes| > 0 && |colors| > 0 then Grid(sizes, colors)
    else if |sizes| > 0 then SizesOnly(sizes)
    else ColorsOnly(colors)
  }

  /** One new variant per combination, in order. */
  function Expand(baseSku: string, combos: seq<Combo>, barcodes: seq<VariantBarcode>): seq<ProductVariant> {
    seq(|combos|, k requires 0 <= k < |combos| => NewVariant(baseSku, combos[k].size, combos[k].color, barcodes))
  }

  /** What `BuildVariants` returns. */
  function Variants(baseSku: string, sizes: seq<string>, colors: seq<string>, barcodes: seq<VariantBarcode>): seq<ProductVariant> {
    Expand(baseSku, Combos(Tags(sizes), Tags(colors)), barcodes)
  }

  /** Expanding one more combination appends one more variant. */
  lemma ExpandSnoc(baseSku: string, combos: seq<Combo>, c: Combo, barcodes: seq<VariantBarcode>)
    ensures Expand(baseSku, combos + [c], barcodes)
         == Expand(baseSku, combos, barcodes) + [NewVariant(baseSku, c.size, c.color, barcodes)]
  {
  }

  /** The grid of one more size is the old grid and that size's row. */
  lemma GridStep(sizes: seq<string>, colors: seq<string>, i: nat)
    requires i < |sizes|
    ensures Grid(sizes[..i + 1], colors) == Grid(sizes[..i], colors) + Row(sizes[i], colors)
  {
    assert sizes[..i + 1][..i] == sizes[..i];
  }

  /** The row for one more colour has one more combination. */
  lemma RowStep(size: string, colors: seq<string>, j: nat)
    requires j < |colors|
    ensures Row(size, colors[..j + 1]) == Row(size, colors[..j]) + [Combo(Some(size), Some(colors[j]))]
  {
  }

  /** One-sided combinations grow one entry per list entry. */
  lemma OneSidedStep(xs: seq<string>, i: nat)
    requires i < |xs|
    ensures SizesOnly(xs[..i + 1]) == SizesOnly(xs[..i]) + [Combo(Some(xs[i]), None)]
    ensures ColorsOnly(xs[..i + 1]) == ColorsOnly(xs[..i]) + [Combo(None, Some(xs[i]))]
  {
  }

  // ---------------------------------------------------------------------------
  // The builder, as the source writes it: nested loops appending to a list
  // ---------------------------------------------------------------------------

  /** `BuildVariants`: the case analysis of the source, each case a loop appending to `variants`. */
  method BuildVariants(baseSku: string, sizes: seq<string>, colors: seq<string>, barcodes: seq<VariantBarcode>)
    returns (variants: seq<ProductVariant>)
    ensures variants == Variants(baseSku, sizes, colors, barcodes)
  {
    var distinctSizes := Tags(sizes);
    var distinctColors := Tags(colors);
    if |distinctSizes| > 0 && |distinctColors| > 0 {
      variants := AddGrid(baseSku, distinctSizes, distinctColors, barcodes);
    } else if |distinctSizes| > 0 {
      variants := AddSizesOnly(baseSku, distinctSizes, barcodes);
    } else {
      variants := AddColorsOnly(baseSku, distinctColors, barcodes);
    }
  }

  /** The nested `foreach` over sizes, then colours. */
  method AddGrid(baseSku: string, distinctSizes: seq<string>, distinctColors: seq<string>, barcodes: seq<VariantBarcode>)
    returns (variants: seq<ProductVariant>)
    ensures variants == Expand(baseSku, Grid(distinctSizes, distinctColors), barcodes)
  {
    variants := [];
    ghost var combos: seq<Combo> := [];
    var i := 0;
    while i < |distinctSizes|
      invariant 0 <= i <= |distinctSizes|
      invariant combos == Grid(distinctSizes[..i], distinctColors)
      invariant variants == Expand(baseSku, combos, barcodes)
    {
      var size := distinctSizes[i];
      ghost var done := combos;
      var j := 0;
      while j < |distinctColors|
        invariant 0 <= j <= |distinctColors|
        invariant combos == done + Row(size, distinctColors[..j])
        invariant variants == Expand(baseSku, combos, barcodes)
      {
        var color := distinctColors[j];
        RowStep(size, distinctColors, j);
        ExpandSnoc(baseSku, combos, Combo(Some(size), Some(color)), barcodes);
        combos := combos + [Combo(Some(size), Some(color))];
        variants := variants + [NewVariant(baseSku, Some(size), Some(color), barcodes)];
        j := j + 1;
      }
      assert distinctColors[..j] == distinctColors;
      GridStep(distinctSizes, distinctColors, i);
      i := i + 1;
    }
    assert distinctSizes[..i] == distinctSizes;
  }

  /** The `foreach` over sizes when there are no colours. */
  method AddSizesOnly(baseSku: string, distinctSizes: seq<string>, barcodes: seq<VariantBarcode>)
    returns (variants: seq<ProductVariant>)
    ensures variants == Expand(baseSku, SizesOnly(distinctSizes), barcodes)
  {
    variants := [];
    var i := 0;
    while i < |distinctSizes|
      invariant 0 <= i <= |distinctSizes|
      invariant variants == Expand(baseSku, SizesOnly(distinctSizes[..i]), barcodes)
    {
      OneSidedStep(distinctSizes, i);
      ExpandSnoc(baseSku, SizesOnly(distinctSizes[..i]), Combo(Some(distinctSizes[i]), None), barcodes);
      variants := variants + [NewVariant(baseSku, Some(distinctSizes[i]), None, barcodes)];
      i := i + 1;
    }
    assert distinctSizes[..i] == distinctSizes;
  }

  /** The `foreach` over colours when there are no sizes (no iteration when both are empty). */
  method AddColorsOnly(baseSku: string, distinctColors: seq<string>, barcodes: seq<VariantBarcode>)
    returns (variants: seq<ProductVariant>)
    ensures variants == Expand(baseSku, ColorsOnly(distinctColors), barcodes)
  {
    variants := [];
    var i := 0;
    while i < |distinctColors|
      invariant 0 <= i <= |distinctColors|
      invariant variants == Expand(baseSku, ColorsOnly(distinctColors[..i]), barcodes)
    {
      OneSidedStep(distinctColors, i);
      ExpandSnoc(baseSku, ColorsOnly(distinctColors[..i]), Combo(None, Some(distinctColors[i])), barcodes);
      variants := variants + [NewVariant(baseSku, None, Some(distinctColors[i]), barcodes)];
      i := i + 1;
    }
    assert distinctColors[..i] == distinctColors;
  }

  // ---------------------------------------------------------------------------
  // Properties of the combinations
  // ---------------------------------------------------------------------------

  /** `i * m`, the position where row `i` of a grid `m` wide starts, by repeated addition. */
  function RowStart(i: nat, m: nat): nat {
    if i == 0 then 0 else RowStart(i - 1, m) + m
  }

  /** The position of cell `j` of row `i` in a grid `m` wide: `i * m + j`. */
  function Cell(i: nat, j: nat, m: nat): nat {
    RowStart(i, m) + j
  }

  /** Row starts are the products they stand for. */
  lemma {:induction false} RowStartIsProduct(i: nat, m: nat)
    ensures RowStart(i, m) == i * m
  {
    if i > 0 {
      RowStartIsProduct(i - 1, m);
      assert (i - 1) * m + m == i * m;
    }
  }

  /** Cell `j` of row `i` lies inside a grid of `n` rows. */
  lemma {:induction false} RowStartBound(i: nat, j: nat, m: nat, n: nat)
    requires i < n && j < m
    ensures Cell(i, j, m) < RowStart(n, m)
    decreases n
  {
    if i < n - 1 {
      RowStartBound(i, j, m, n - 1);
    }
  }

  /** The grid has one entry per size and colour pair. */
  lemma {:induction false} GridLength(sizes: seq<string>, colors: seq<string>)
    ensures |Grid(sizes, colors)| == RowStart(|sizes|, |colors|)
    decreases |sizes|
  {
    if sizes != [] {
      GridLength(sizes[..|sizes| - 1], colors);
    }
  }

  /** Size `i` and colour `j` sit at position `i * |colors| + j`: sizes outer, colours inner. */
  lemma {:induction false} GridAt(sizes: seq<string>, colors: seq<string>, i: nat, j: nat)
    requires i < |sizes| && j < |colors|
    ensures |Grid(sizes, colors)| == RowStart(|sizes|, |colors|)
    ensures Cell(i, j, |colors|) < |Grid(sizes, colors)|
    ensures Grid(sizes, colors)[Cell(i, j, |colors|)] == Combo(Some(sizes[i]), Some(colors[j]))
    decreases |sizes|
  {
    var n := |sizes|;
    var m := |colors|;
    var p := sizes[..n - 1];
    GridLength(p, colors);
    GridLength(sizes, colors);
    RowStartBound(i, j, m, n);
    assert Grid(sizes, colors) == Grid(p, colors) + Row(sizes[n - 1], colors);
    if i < n - 1 {
      RowStartBound(i, j, m, n - 1);
      GridAt(p, colors, i, j);
      assert p[i] == sizes[i];
    }
  }

  /** Every grid entry pairs a size from the list with a colour from the list. */
  lemma {:induction false} GridMembers(sizes: seq<string>, colors: seq<string>)
    ensures forall k :: 0 <= k < |Grid(sizes, colors)| ==>
      Grid(sizes, colors)[k].size.Some? && Grid(sizes, colors)[k].size.value in sizes &&
      Grid(sizes, colors)[k].color.Some? && Grid(sizes, colors)[k].color.value in colors
    decreases |sizes|
  {
    if sizes != [] {
      var p := sizes[..|sizes| - 1];
      GridMembers(p, colors);
      assert forall x :: x in p ==> x in sizes;
    }
  }

  /** Duplicate-free sizes and colours give a duplicate-free grid. */
  lemma {:induction false} GridNoDuplicates(sizes: seq<string>, colors: seq<string>)
    requires NoDuplicates(sizes) && NoDuplicates(colors)
    ensures NoDuplicates(Grid(sizes, colors))
    decreases |sizes|
  {
    if sizes != [] {
      var p := sizes[..|sizes| - 1];
      var last := sizes[|sizes| - 1];
      var g := Grid(p, colors);
      var row := Row(last, colors);
      assert NoDuplicates(p);
      GridNoDuplicates(p, colors);
      GridMembers(p, colors);
      assert last !in p;
      forall a, b | 0 <= a < b < |g + row| ensures (g + row)[a] != (g + row)[b] {
        if b < |g| {
          assert (g + row)[a] == g[a] && (g + row)[b] == g[b];
        } else if a < |g| {
          assert (g + row)[a] == g[a] && (g + row)[b] == row[b - |g|];
        } else {
          assert (g + row)[a] == row[a - |g|] && (g + row)[b] == row[b - |g|];
        }
      }
    }
  }

  /** The combinations never repeat, for any input lists. */
  lemma CombosNoDuplicates(sizes: seq<string>, colors: seq<string>)
    ensures NoDuplicates(Combos(Tags(sizes), Tags(colors)))
  {
    var s := Tags(sizes);
    var c := Tags(colors);
    if |s| > 0 && |c| > 0 {
      GridNoDuplicates(s, c);
    } else if |s| > 0 {
      assert forall a, b :: 0 <= a < b < |s| ==> SizesOnly(s)[a] != SizesOnly(s)[b] by {
        forall a, b | 0 <= a < b < |s| ensures SizesOnly(s)[a] != SizesOnly(s)[b] {
          assert s[a] != s[b];
        }
      }
    } else {
      forall a, b | 0 <= a < b < |c| ensures ColorsOnly(c)[a] != ColorsOnly(c)[b] {
        assert c[a] != c[b];
      }
    }
  }

  /** The tags keep the first-occurrence order of the non-blank entries and drop nothing else. */
  lemma {:induction false} NonBlankKeepsOrder(xs: seq<string>)
    requires NoDuplicates(xs)
    ensures forall i, j :: 0 <= i < j < |NonBlank(xs)| ==>
      FirstIndex(xs, NonBlank(xs)[i]) < FirstIndex(xs, NonBlank(xs)[j])
    decreases |xs|
  {
    if xs != [] {
      var p := xs[..|xs| - 1];
      var x := xs[|xs| - 1];
      var r := NonBlank(p);
      assert NoDuplicates(p);
      NonBlankKeepsOrder(p);
      forall y | y in p ensures FirstIndex(xs, y) == FirstIndex(p, y) {
        var k := FirstIndex(p, y);
        assert xs[..k] == p[..k];
        FirstIndexUnique(xs, y, k);
      }
      if !IsBlank(DotNet, x) {
        assert x !in p;
        assert xs[..|xs| - 1] == p;
        FirstIndexUnique(xs, x, |xs| - 1);
        var r' := r + [x];
        forall i, j | 0 <= i < j < |r'| ensures FirstIndex(xs, r'[i]) < FirstIndex(xs, r'[j]) {
          if j < |r| {
            assert r'[i] == r[i] && r'[j] == r[j];
          } else {
            assert r'[i] == r[i] && r[i] in p;
          }
        }
      }
    }
  }

  /** `Tags` lists the distinct non-blank entries, each once, in order of first occurrence. */
  lemma TagsSpec(xs: seq<string>)
    ensures NoDuplicates(Tags(xs))
    ensures forall i :: 0 <= i < |Tags(xs)| ==> Tags(xs)[i] in xs && !IsBlank(DotNet, Tags(xs)[i])
    ensures forall i :: 0 <= i < |xs| && !IsBlank(DotNet, xs[i]) ==> xs[i] in Tags(xs)
    ensures forall i, j :: 0 <= i < j < |Tags(xs)| ==> FirstIndex(xs, Tags(xs)[i]) < FirstIndex(xs, Tags(xs)[j])
  {
    var d := Distinct(xs);
    NonBlankKeepsOrder(d);
    DistinctKeepsFirstOccurrenceOrder(xs);
    var t := NonBlank(d);
    forall i | 0 <= i < |xs| && !IsBlank(DotNet, xs[i]) ensures xs[i] in t {
      var k :| 0 <= k < |d| && d[k] == xs[i];
    }
    forall i, j | 0 <= i < j < |t| ensures FirstIndex(xs, t[i]) < FirstIndex(xs, t[j]) {
      var a := FirstIndex(d, t[i]);
      var b := FirstIndex(d, t[j]);
      assert a < b;
    }
  }

  /** The variant at one position of the expansion. */
  lemma ExpandAt(baseSku: string, combos: seq<Combo>, barcodes: seq<VariantBarcode>, k: nat)
    requires k < |combos|
    ensures |Expand(baseSku, combos, barcodes)| == |combos|
    ensures Expand(baseSku, combos, barcodes)[k] == NewVariant(baseSku, combos[k].size, combos[k].color, barcodes)
  {
  }

  /** The grid expanded: entry `Cell(i, j, |c|)` is the variant for size `i` and colour `j`. */
  lemma ExpandGrid(baseSku: string, s: seq<string>, c: seq<string>, barcodes: seq<VariantBarcode>)
    ensures |Expand(baseSku, Grid(s, c), barcodes)| == RowStart(|s|, |c|)
    ensures forall i, j :: 0 <= i < |s| && 0 <= j < |c| ==>
      Cell(i, j, |c|) < RowStart(|s|, |c|) &&
      Expand(baseSku, Grid(s, c), barcodes)[Cell(i, j, |c|)] == NewVariant(baseSku, Some(s[i]), Some(c[j]), barcodes)
  {
    GridLength(s, c);
    forall i, j | 0 <= i < |s| && 0 <= j < |c|
      ensures Cell(i, j, |c|) < RowStart(|s|, |c|) &&
      Expand(baseSku, Grid(s, c), barcodes)[Cell(i, j, |c|)] == NewVariant(baseSku, Some(s[i]), Some(c[j]), barcodes)
    {
      GridAt(s, c, i, j);
      ExpandAt(baseSku, Grid(s, c), barcodes, Cell(i, j, |c|));
    }
  }

  /**
   * With sizes and colours both given, the variants are their full product, sizes
   * outer: size `i` with colour `j` is variant `i * |colors| + j`.
   */
  lemma VariantsBothLists(baseSku: string, sizes: seq<string>, colors: seq<string>, barcodes: seq<VariantBarcode>)
    requires |Tags(sizes)| > 0 && |Tags(colors)| > 0
    ensures var s, c, v := Tags(sizes), Tags(colors), Variants(baseSku, sizes, colors, barcodes);
      |v| == RowStart(|s|, |c|) &&
      forall i, j :: 0 <= i < |s| && 0 <= j < |c| ==>
        Cell(i, j, |c|) < |v| && v[Cell(i, j, |c|)] == NewVariant(baseSku, Some(s[i]), Some(c[j]), barcodes)
  {
    ExpandGrid(baseSku, Tags(sizes), Tags(colors), barcodes);
  }

  /** The number of variants: the product of the tag counts, or the one non-empty count. */
  lemma VariantsCount(baseSku: string, sizes: seq<string>, colors: seq<string>, barcodes: seq<VariantBarcode>)
    ensures var s, c := Tags(sizes), Tags(colors);
      |Variants(baseSku, sizes, colors, barcodes)| ==
        if |s| > 0 && |c| > 0 then |s| * |c| else |s| + |c|
  {
    var s, c := Tags(sizes), Tags(colors);
    if |s| > 0 && |c| > 0 {
      GridLength(s, c);
      RowStartIsProduct(|s|, |c|);
    }
  }

  /** With sizes only, one variant per size and no colour; likewise with colours only. */
  lemma VariantsOneList(baseSku: string, sizes: seq<string>, colors: seq<string>, barcodes: seq<VariantBarcode>)
    ensures var s, c, v := Tags(sizes), Tags(colors), Variants(baseSku, sizes, colors, barcodes);
      (|s| > 0 && |c| == 0 ==>
        |v| == |s| && forall i :: 0 <= i < |s| ==> v[i] == NewVariant(baseSku, Some(s[i]), None, barcodes)) &&
      (|s| == 0 && |c| > 0 ==>
        |v| == |c| && forall j :: 0 <= j < |c| ==> v[j] == NewVariant(baseSku, None, Some(c[j]), barcodes)) &&
      (|s| == 0 && |c| == 0 ==> v == [])
  {
  }

  /**
   * Every variant built is fresh (id 0, not yet attached, no price adjustment, stock 0)
   * and carries the SKU and barcode of its combination.
   */
  lemma VariantsFresh(baseSku: string, combos: seq<Combo>, barcodes: seq<VariantBarcode>)
    ensures var v := Expand(baseSku, combos, barcodes);
      |v| == |combos| &&
      forall k :: 0 <= k < |v| ==>
        v[k].id == 0 && v[k].productId == 0 && v[k].priceAdjustment == None && v[k].stock == 0 &&
        v[k].size == combos[k].size && v[k].color == combos[k].color &&
        v[k].sku == VariantSku(baseSku, v[k].size, v[k].color) &&
        v[k].barcode == FindBarcode(barcodes, v[k].size, v[k].color)
  {
  }

  /** No two variants share a size and colour combination. */
  lemma VariantsDistinctCombos(baseSku: string, sizes: seq<string>, colors: seq<string>, barcodes: seq<VariantBarcode>)
    ensures var v := Variants(baseSku, sizes, colors, barcodes);
      forall a, b :: 0 <= a < b < |v| ==> (v[a].size, v[a].color) != (v[b].size, v[b].color)
  {
    var combos := Combos(Tags(sizes), Tags(colors));
    CombosNoDuplicates(sizes, colors);
    var v := Variants(baseSku, sizes, colors, barcodes);
    forall a, b | 0 <= a < b < |v| ensures (v[a].size, v[a].color) != (v[b].size, v[b].color) {
      assert combos[a] != combos[b];
    }
  }

  /** A list of blank entries only keeps nothing. */
  lemma {:induction false} NonBlankOfBlanks(xs: seq<string>)
    requires forall i :: 0 <= i < |xs| ==> IsBlank(DotNet, xs[i])
    ensures NonBlank(xs) == []
    decreases |xs|
  {
    if xs != [] {
      NonBlankOfBlanks(xs[..|xs| - 1]);
    }
  }

  /** A request whose entries are all blank has no tags. */
  lemma TagsOfBlanks(xs: seq<string>)
    requires forall i :: 0 <= i < |xs| ==> IsBlank(DotNet, xs[i])
    ensures Tags(xs) == []
  {
    var d := Distinct(xs);
    forall i | 0 <= i < |d| ensures IsBlank(DotNet, d[i]) {
      var k :| 0 <= k < |xs| && xs[k] == d[i];
    }
    NonBlankOfBlanks(d);
  }

  /** Every pair of a non-blank requested size and a non-blank requested colour has its variant. */
  lemma VariantsCoverInput(baseSku: string, sizes: seq<string>, colors: seq<string>, barcodes: seq<VariantBarcode>, x: string, y: string)
    requires x in sizes && !IsBlank(DotNet, x)
    requires y in colors && !IsBlank(DotNet, y)
    ensures exists k :: (0 <= k < |Variants(baseSku, sizes, colors, barcodes)|
      && Variants(baseSku, sizes, colors, barcodes)[k] == NewVariant(baseSku, Some(x), Some(y), barcodes))
  {
    TagsSpec(sizes);
    TagsSpec(colors);
    var s, c := Tags(sizes), Tags(colors);
    var a :| 0 <= a < |s| && s[a] == x;
    var b :| 0 <= b < |c| && c[b] == y;
    VariantsBothLists(baseSku, sizes, colors, barcodes);
    var v := Variants(baseSku, sizes, colors, barcodes);
    assert v[Cell(a, b, |c|)] == NewVariant(baseSku, Some(x), Some(y), barcodes);
  }

  /** When every requested colour is blank, every non-blank requested size has its size-only variant. */
  lemma VariantsCoverSizes(baseSku: string, sizes: seq<string>, colors: seq<string>, barcodes: seq<VariantBarcode>, x: string)
    requires x in sizes && !IsBlank(DotNet, x)
    requires forall j :: 0 <= j < |colors| ==> IsBlank(DotNet, colors[j])
    ensures exists k :: (0 <= k < |Variants(baseSku, sizes, colors, barcodes)|
      && Variants(baseSku, sizes, colors, barcodes)[k] == NewVariant(baseSku, Some(x), None, barcodes))
  {
    TagsSpec(sizes);
    TagsSpec(colors);
    var s, c := Tags(sizes), Tags(colors);
    TagsOfBlanks(colors);
    var a :| 0 <= a < |s| && s[a] == x;
    VariantsOneList(baseSku, sizes, colors, barcodes);
    assert Variants(baseSku, sizes, colors, barcodes)[a] == NewVariant(baseSku, Some(x), None, barcodes);
  }

  /** When every requested size is blank, every non-blank requested colour has its colour-only variant. */
  lemma VariantsCoverColors(baseSku: string, sizes: seq<string>, colors: seq<string>, barcodes: seq<VariantBarcode>, y: string)
    requires forall i :: 0 <= i < |sizes| ==> IsBlank(DotNet, sizes[i])
    requires y in colors && !IsBlank(DotNet, y)
    ensures exists k :: (0 <= k < |Variants(baseSku, sizes, colors, barcodes)|
      && Variants(baseSku, sizes, colors, barcodes)[k] == NewVariant(baseSku, None, Some(y), barcodes))
  {
    TagsSpec(sizes);
    TagsSpec(colors);
    var s, c := Tags(sizes), Tags(colors);
    TagsOfBlanks(sizes);
    var b :| 0 <= b < |c| && c[b] == y;
    VariantsOneList(baseSku, sizes, colors, barcodes);
    assert Variants(baseSku, sizes, colors, barcodes)[b] == NewVariant(baseSku, None, Some(y), barcodes);
  }

  // ---------------------------------------------------------------------------
  // Properties of the SKU and barcode of one variant
  // ---------------------------------------------------------------------------

  /** A SKU part is the upper-case form with each space turned into a hyphen. */
  lemma SkuPartShape(p: string)
    ensures |SkuPart(p)| == |p|
    ensures forall i :: 0 <= i < |p| ==> SkuPart(p)[i] != ' '
    ensures Upper(SkuPart(p)) == SkuPart(p)
    ensures forall i :: 0 <= i < |p| && p[i] != ' ' ==> SkuPart(p)[i] == UpperChar(p[i])
  {
    ReplaceSpacesRemovesSpaces(Upper(p));
    var q := SkuPart(p);
    forall i | 0 <= i < |q| ensures Upper(q)[i] == q[i] {
      assert q[i] == '-' || q[i] == UpperChar(p[i]);
    }
  }

  /** With all three parts present the SKU is `BASE-SIZE-COLOR`. */
  lemma VariantSkuAllParts(baseSku: string, size: string, color: string)
    requires !IsBlank(DotNet, baseSku) && !IsBlank(DotNet, size) && !IsBlank(DotNet, color)
    ensures VariantSku(baseSku, Some(size), Some(color)) == SkuPart(baseSku) + "-" + SkuPart(size) + "-" + SkuPart(color)
  {
    assert PartIfPresent(Some(baseSku)) + PartIfPresent(Some(size)) + PartIfPresent(Some(color))
        == [SkuPart(baseSku), SkuPart(size), SkuPart(color)];
    JoinThree("-", SkuPart(baseSku), SkuPart(size), SkuPart(color));
  }

  /** A blank or absent part contributes nothing: not even its separator. */
  lemma VariantSkuSkipsBlankParts(baseSku: string, size: Option<string>, color: Option<string>)
    requires !IsBlank(DotNet, baseSku)
    ensures IsNullOrWhiteSpace(size) && IsNullOrWhiteSpace(color) ==> VariantSku(baseSku, size, color) == SkuPart(baseSku)
    ensures IsNullOrWhiteSpace(size) && !IsNullOrWhiteSpace(color) ==>
      VariantSku(baseSku, size, color) == SkuPart(baseSku) + "-" + SkuPart(color.value)
    ensures !IsNullOrWhiteSpace(size) && IsNullOrWhiteSpace(color) ==>
      VariantSku(baseSku, size, color) == SkuPart(baseSku) + "-" + SkuPart(size.value)
  {
    var parts := PartIfPresent(Some(baseSku)) + PartIfPresent(size) + PartIfPresent(color);
    if |parts| == 2 {
      assert parts[1..] == [parts[1]];
      assert Join("-", parts) == parts[0] + "-" + parts[1];
    }
  }

  /** The SKU is as long as its parts and the hyphens between them. */
  lemma VariantSkuLength(baseSku: string, size: string, color: string)
    requires !IsBlank(DotNet, baseSku) && !IsBlank(DotNet, size) && !IsBlank(DotNet, color)
    ensures |VariantSku(baseSku, Some(size), Some(color))| == |baseSku| + |size| + |color| + 2
  {
    VariantSkuAllParts(baseSku, size, color);
  }

  /** The barcode override is matched ignoring case: "s"/"red" applies to the variant S/Red. */
  lemma BarcodeMatchIgnoresCase()
    ensures FindBarcode([VariantBarcode(Some("s"), Some("red"), Some("4006381333931"))], Some("S"), Some("Red"))
         == Some("4006381333931")
  {
    assert Upper("s") == Upper("S") == "S";
    assert Upper("red") == Upper("Red") == "RED";
  }

  /** A null size in an override matches only a variant without a size. */
  lemma BarcodeNullMatchesOnlyNull(x: string, b: seq<VariantBarcode>)
    requires forall i :: 0 <= i < |b| ==> b[i].size == None
    ensures FindBarcode(b, Some(x), None) == None
  {
    FindBarcodeSpec(b, Some(x), None);
  }

  /** The SKU of a T-shirt variant: base, size and colour upper-cased and joined. */
  lemma ExampleTeeShirtSku(size: string)
    requires size == "S" || size == "M"
    ensures VariantSku("TEE-001", Some(size), Some("Red")) == (if size == "S" then "TEE-001-S-RED" else "TEE-001-M-RED")
  {
    assert !IsBlank(DotNet, size) by { assert !IsWhiteSpace(DotNet, size[0]); }
    assert !IsBlank(DotNet, "Red") by { assert !IsWhiteSpace(DotNet, "Red"[0]); }
    assert !IsBlank(DotNet, "TEE-001") by { assert !IsWhiteSpace(DotNet, "TEE-001"[0]); }
    VariantSkuAllParts("TEE-001", size, "Red");
    assert SkuPart("TEE-001") == "TEE-001" by {
      assert Upper("TEE-001") == "TEE-001";
    }
    assert SkuPart("Red") == "RED" by {
      assert Upper("Red") == "RED";
    }
    if size == "S" {
      assert SkuPart("S") == "S";
      assert "TEE-001" + "-" + "S" + "-" + "RED" == "TEE-001-S-RED";
    } else {
      assert SkuPart("M") == "M";
      assert "TEE-001" + "-" + "M" + "-" + "RED" == "TEE-001-M-RED";
    }
  }

  /** The tags of a T-shirt request: two sizes and one colour, as given. */
  lemma ExampleTeeShirtTags(sizes: seq<string>, colors: seq<string>)
    requires sizes == ["S", "M"] && colors == ["Red"]
    ensures Tags(sizes) == sizes && Tags(colors) == colors
  {
    DistinctOfDuplicateFree(sizes);
    DistinctOfDuplicateFree(colors);
    assert !IsBlank(DotNet, "S") by { assert !IsWhiteSpace(DotNet, "S"[0]); }
    assert !IsBlank(DotNet, "M") by { assert !IsWhiteSpace(DotNet, "M"[0]); }
    assert !IsBlank(DotNet, "Red") by { assert !IsWhiteSpace(DotNet, "Red"[0]); }
    assert sizes[..1] == ["S"];
    assert NonBlank(sizes) == NonBlank(["S"]) + ["M"];
  }

  /** T-shirt TEE-001 in S and M, colour Red: two variants, TEE-001-S-RED and TEE-001-M-RED. */
  lemma ExampleTeeShirt(sizes: seq<string>, colors: seq<string>)
    requires sizes == ["S", "M"] && colors == ["Red"]
    ensures var v := Variants("TEE-001", sizes, colors, []);
      |v| == 2 && v[0].sku == "TEE-001-S-RED" && v[1].sku == "TEE-001-M-RED"
  {
    ExampleTeeShirtTags(sizes, colors);
    var g := [Combo(Some("S"), Some("Red")), Combo(Some("M"), Some("Red"))];
    assert Grid(sizes, colors) == g by {
      assert sizes[..1] == ["S"];
      assert Grid(["S"], colors) == Row("S", colors);
    }
    var v := Expand("TEE-001", g, []);
    assert Variants("TEE-001", sizes, colors, []) == v;
    ExpandAt("TEE-001", g, [], 0);
    ExpandAt("TEE-001", g, [], 1);
    ExampleTeeShirtSku("S");
    ExampleTeeShirtSku("M");
    assert v[0].sku == VariantSku("TEE-001", Some("S"), Some("Red"));
    assert v[1].sku == VariantSku("TEE-001", Some("M"), Some("Red"));
  }

  /** Distinct is exact: "Blue" and "Blue " are two colours and give two variants. */
  lemma ExampleTrailingSpaceIsAnotherColour()
    ensures |Variants("CAP", [], ["Blue", "Blue "], [])| == 2
  {
    var colors: seq<string> := ["Blue", "Blue "];
    assert colors[0] != colors[1] by { assert |colors[0]| != |colors[1]|; }
    DistinctOfDuplicateFree(colors);
    assert !IsBlank(DotNet, "Blue") by { assert !IsWhiteSpace(DotNet, "Blue"[0]); }
    assert !IsBlank(DotNet, "Blue ") by { assert !IsWhiteSpace(DotNet, "Blue "[0]); }
    assert colors[..1] == ["Blue"];
    assert NonBlank(colors) == NonBlank(["Blue"]) + ["Blue "];
    assert Tags(colors) == colors;
    assert Tags([]) == [];
    VariantsOneList("CAP", [], colors, []);
  }

  /** Each space becomes its own hyphen: size "X  L" gives the part "X--L". */
  lemma ExampleDoubleSpace()
    ensures SkuPart("X  L") == "X--L"
  {
  }
}
