/**
 * The page header (frontend layout/header/header.component.ts): the title and subtitle
 * chosen from the current route, and the red badge over the cart icon.
 */
module Header {

  import opened Wrappers
  import opened Text

  /** The title for a route URL; an absent URL counts as "". "products" is checked first. */
  function PageTitle(url: Option<string>): string {
    var u := url.GetOr("");
    if Contains(u, "products") then "Products"
    else if Contains(u, "categories") then "Categories"
    else "Point of Sale"
  }

  /** The subtitle for a route URL, by the same tests in the same order. */
  function PageSubtitle(url: Option<string>): string {
    var u := url.GetOr("");
    if Contains(u, "products") then "Manage your product catalogue"
    else if Contains(u, "categories") then "Manage product categories"
    else "Process transactions"
  }

  /** The subtitle that belongs with each title. */
  function SubtitleFor(title: string): string {
    if title == "Products" then "Manage your product catalogue"
    else if title == "Categories" then "Manage product categories"
    else "Process transactions"
  }

  /** The badge over the cart icon: none for an empty cart, "99+" past 99, else the count. */
  function CartBadge(count: int): Option<string> {
    if count > 0 then Some(if count > 99 then "99+" else IntToString(count)) else None
  }

  // ---------------------------------------------------------------------------
  // Properties
  // ---------------------------------------------------------------------------

  /**
   * How the route ranks: any occurrence of "products" gives the catalogue title,
   * "categories" counts only without one, and every other URL is the POS.
   */
  lemma PageTitleRanking(url: string)
    ensures PageTitle(Some(url)) == "Products" <==> exists i :: OccursAt(url, "products", i)
    ensures PageTitle(Some(url)) == "Categories" <==>
      (forall i :: !OccursAt(url, "products", i)) && exists i :: OccursAt(url, "categories", i)
    ensures PageTitle(Some(url)) == "Point of Sale" <==>
      (forall i :: !OccursAt(url, "products", i)) && forall i :: !OccursAt(url, "categories", i)
  {
    ContainsIff(url, "products");
    ContainsIff(url, "categories");
  }

  /** A URL under "/products" always gets the catalogue title, whatever follows. */
  lemma ProductsRouteIsCatalogue(rest: string)
    ensures PageTitle(Some("/products" + rest)) == "Products"
  {
    var u := "/products" + rest;
    assert u[1..1 + |"products"|] == "products";
    assert OccursAt(u, "products", 1);
    PageTitleRanking(u);
  }

  /** A URL under "/categories" gets the categories title unless "products" occurs in it. */
  lemma CategoriesRouteIsCategories(rest: string)
    requires forall i :: !OccursAt("/categories" + rest, "products", i)
    ensures PageTitle(Some("/categories" + rest)) == "Categories"
  {
    var u := "/categories" + rest;
    assert u[1..1 + |"categories"|] == "categories";
    assert OccursAt(u, "categories", 1);
    PageTitleRanking(u);
  }

  /** The subtitle always belongs with the title. */
  lemma SubtitleMatchesTitle(url: Option<string>)
    ensures PageSubtitle(url) == SubtitleFor(PageTitle(url))
  {
  }

  /** Without a URL the header shows the POS title and subtitle. */
  lemma NoUrlIsPointOfSale()
    ensures PageTitle(None) == "Point of Sale" && PageSubtitle(None) == "Process transactions"
  {
    assert !Contains("", "products") && !Contains("", "categories");
  }

  /** The decimal form of 1..99 has one or two digits. */
  lemma SmallCountDigits(n: nat)
    requires n < 100
    ensures 1 <= |NatToString(n)| <= 2
  {
    if n >= 10 {
      assert NatToString(n) == NatToString(n / 10) + [Digit(n % 10)];
    }
  }

  /**
   * The badge shows exactly when the cart holds something. It never takes more than
   * three characters, and up to 99 it tells different counts apart.
   */
  lemma CartBadgeSpec(count: int)
    ensures CartBadge(count).Some? <==> count > 0
    ensures count > 99 ==> CartBadge(count) == Some("99+")
    ensures 0 < count <= 99 ==> CartBadge(count) == Some(NatToString(count))
    ensures CartBadge(count).Some? ==> 1 <= |CartBadge(count).value| <= 3
  {
    if 0 < count <= 99 {
      SmallCountDigits(count);
    }
  }

  /** Two counts from 1 to 99 with the same badge are the same count. */
  lemma CartBadgeInjective(a: int, b: int)
    requires 0 < a <= 99 && 0 < b <= 99 && CartBadge(a) == CartBadge(b)
    ensures a == b
  {
    IntToStringInjective(a, b);
  }
}
