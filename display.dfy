/**
 * Display helpers of the client's components: image URL resolution (the same method
 * in the POS screen, the product list and the header), the two variant labels of the
 * product list, its compact variant cell and its variant total.
 */
module Display {

  import opened Wrappers
  import opened Text
  import opened ClientModels

  // ---------------------------------------------------------------------------
  // Image URLs
  // ---------------------------------------------------------------------------

  /** JavaScript truthiness of an optional string: present and not empty. */
  predicate Truthy(s: Option<string>) {
    s.Some? && s.value != ""
  }

  /** `s.endsWith(suffix)`. */
  predicate EndsWith(s: string, suffix: string) {
    |suffix| <= |s| && s[|s| - |suffix|..] == suffix
  }

  /** `apiUrl.replace(/\/api$/, '')`: the API base without one trailing "/api". */
  function ApiOrigin(apiUrl: string): string {
    if EndsWith(apiUrl, "/api") then apiUrl[..|apiUrl| - 4] else apiUrl
  }

  /**
   * `resolveImageUrl(url)`: nothing for a missing or empty URL, an absolute "http…"
   * URL as it is, and otherwise the server-relative path after the API's origin.
   * `apiUrl` is the build's `environment.apiUrl`.
   */
  function ResolveImageUrl(apiUrl: string, url: Option<string>): string {
    if !Truthy(url) then ""
    else if StartsWith(url.value, "http") then url.value
    else ApiOrigin(apiUrl) + url.value
  }

  // ---------------------------------------------------------------------------
  // Variant labels
  // ---------------------------------------------------------------------------

  /** `[…].filter(Boolean)` over optional strings: the truthy values, in order. */
  function Present(parts: seq<Option<string>>): seq<string>
    decreases |parts|
  {
    if parts == [] then []
    else (if Truthy(parts[0]) then [parts[0].value] else []) + Present(parts[1..])
  }

  /** The product list's `variantLabel` method: size and colour joined with "-". */
  function VariantLabel(v: VariantView): string {
    Join("-", Present([v.size, v.color]))
  }

  /** The product list's module-level `variantLabel`: size and colour joined with " · ", else the SKU. */
  function ToastLabel(v: VariantView): string {
    var joined := Join(" \U{00B7} ", Present([v.size, v.color]));
    if joined == "" then v.sku else joined
  }

  // ---------------------------------------------------------------------------
  // The variants column of the product table
  // ---------------------------------------------------------------------------

  /** How many variant tags the column shows before the "+n" badge. */
  const ShownVariants := 4

  /** The cell: a dash when there are no variants, else some tags and perhaps a "+n" badge. */
  datatype VariantCell = NoVariants | Tags(labels: seq<string>, overflow: Option<int>)

  /** `variants.slice(0, 4)` labelled, and `variants.length - 4` when that is positive. */
  function VariantCellOf(variants: seq<VariantView>): VariantCell {
    if |variants| == 0 then NoVariants
    else
      var shown := if |variants| < ShownVariants then |variants| else ShownVariants;
      Tags(seq(shown, i requires 0 <= i < shown && shown <= |variants| => VariantLabel(variants[i])),
           if |variants| > ShownVariants then Some(|variants| - ShownVariants) else None)
  }

  /** `totalVariants`: the number of variants over all listed products, folded from the left. */
  function TotalVariants(products: seq<ProductView>): nat
    decreases |products|
  {
    if products == [] then 0
    else TotalVariants(products[..|products| - 1]) + |products[|products| - 1].variants|
  }

  // ---------------------------------------------------------------------------
  // Properties
  // ---------------------------------------------------------------------------

  /** The origin is the API base with exactly one trailing "/api" removed, if there was one. */
  lemma ApiOriginSpec(apiUrl: string)
    ensures EndsWith(apiUrl, "/api") ==> ApiOrigin(apiUrl) + "/api" == apiUrl
    ensures !EndsWith(apiUrl, "/api") ==> ApiOrigin(apiUrl) == apiUrl
    ensures StartsWith(apiUrl, ApiOrigin(apiUrl))
  {
    if EndsWith(apiUrl, "/api") {
      assert apiUrl == apiUrl[..|apiUrl| - 4] + apiUrl[|apiUrl| - 4..];
    }
  }

  /**
   * The three cases of `resolveImageUrl`: empty for a missing or empty URL, the URL
   * itself when it starts with "http", the origin followed by the URL otherwise. A
   * present URL is always the tail of the result.
   */
  lemma ResolveImageUrlSpec(apiUrl: string, url: Option<string>)
    ensures ResolveImageUrl(apiUrl, url) == "" <==> !Truthy(url)
    ensures Truthy(url) && StartsWith(url.value, "http") ==> ResolveImageUrl(apiUrl, url) == url.value
    ensures Truthy(url) && !StartsWith(url.value, "http") ==> ResolveImageUrl(apiUrl, url) == ApiOrigin(apiUrl) + url.value
    ensures Truthy(url) ==> EndsWith(ResolveImageUrl(apiUrl, url), url.value)
  {
    if Truthy(url) {
      var r := ResolveImageUrl(apiUrl, url);
      assert r[|r| - |url.value|..] == url.value;
    }
  }

  /** When the API lives at an "http…" address, resolving a resolved URL changes nothing. */
  lemma ResolveImageUrlIdempotent(apiUrl: string, url: Option<string>)
    requires StartsWith(ApiOrigin(apiUrl), "http")
    ensures var r := ResolveImageUrl(apiUrl, url);
      ResolveImageUrl(apiUrl, Some(r)) == r
  {
    var r := ResolveImageUrl(apiUrl, url);
    if Truthy(url) && !StartsWith(url.value, "http") {
      var o := ApiOrigin(apiUrl);
      assert r[..4] == o[..4];
    }
  }

  /** Both labels, case by case: the truthy parts joined, and the SKU when there are none. */
  lemma VariantLabelCases(v: VariantView)
    ensures Truthy(v.size) && Truthy(v.color) ==>
      VariantLabel(v) == v.size.value + "-" + v.color.value
      && ToastLabel(v) == v.size.value + " \U{00B7} " + v.color.value
    ensures Truthy(v.size) && !Truthy(v.color) ==> VariantLabel(v) == v.size.value && ToastLabel(v) == v.size.value
    ensures !Truthy(v.size) && Truthy(v.color) ==> VariantLabel(v) == v.color.value && ToastLabel(v) == v.color.value
    ensures !Truthy(v.size) && !Truthy(v.color) ==> VariantLabel(v) == "" && ToastLabel(v) == v.sku
  {
    var s := if Truthy(v.size) then [v.size.value] else [];
    var c := if Truthy(v.color) then [v.color.value] else [];
    var parts := [v.size, v.color];
    assert parts[1..] == [v.color] && [v.color][1..] == [];
    assert Present([v.color]) == c + Present([]);
    assert Present(parts) == s + c;
    if Truthy(v.size) && Truthy(v.color) {
      assert s + c == [v.size.value, v.color.value] && (s + c)[1..] == c;
      assert Join("-", s + c) == v.size.value + "-" + Join("-", c);
      assert Join(" \U{00B7} ", s + c) == v.size.value + " \U{00B7} " + Join(" \U{00B7} ", c);
    }
  }

  /** The toast label is empty only when size, colour and SKU all are. */
  lemma ToastLabelEmpty(v: VariantView)
    ensures ToastLabel(v) == "" <==> !Truthy(v.size) && !Truthy(v.color) && v.sku == ""
  {
    VariantLabelCases(v);
    if Truthy(v.size) && Truthy(v.color) {
      assert |ToastLabel(v)| >= |v.size.value|;
    }
  }

  /**
   * The cell shows a dash exactly when there are no variants; otherwise the labels of
   * the first min(4, n) variants and a badge of n - 4 when n > 4, so every variant is
   * either shown or counted.
   */
  lemma VariantCellSpec(variants: seq<VariantView>)
    ensures VariantCellOf(variants).NoVariants? <==> variants == []
    ensures var c := VariantCellOf(variants);
      c.Tags? ==>
        && |c.labels| <= ShownVariants
        && |c.labels| + c.overflow.GetOr(0) == |variants|
        && (forall i :: 0 <= i < |c.labels| ==> c.labels[i] == VariantLabel(variants[i]))
        && (c.overflow.Some? <==> |variants| > ShownVariants)
        && (c.overflow.Some? ==> c.overflow.value > 0)
  {
  }

  /** `totalVariants` of two lists joined is the sum of their totals. */
  lemma {:induction false} TotalVariantsConcat(ps: seq<ProductView>, qs: seq<ProductView>)
    ensures TotalVariants(ps + qs) == TotalVariants(ps) + TotalVariants(qs)
    decreases |qs|
  {
    if qs == [] {
      assert ps + qs == ps;
    } else {
      var q := qs[..|qs| - 1];
      TotalVariantsConcat(ps, q);
      assert (ps + qs)[..|ps + qs| - 1] == ps + q;
    }
  }

  /** No listed product has more variants than the total, and the total is 0 exactly when none has any. */
  lemma {:induction false} TotalVariantsBounds(products: seq<ProductView>)
    ensures forall i :: 0 <= i < |products| ==> |products[i].variants| <= TotalVariants(products)
    ensures TotalVariants(products) == 0 <==> forall i :: 0 <= i < |products| ==> products[i].variants == []
    decreases |products|
  {
    if products != [] {
      var p := products[..|products| - 1];
      TotalVariantsBounds(p);
      assert forall i :: 0 <= i < |p| ==> products[i] == p[i];
    }
  }
}
