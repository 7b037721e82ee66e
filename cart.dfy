/**
 * The shopping cart (frontend core/services/cart.service.ts): a list of lines keyed
 * by "productId-variantId". Adding a key already present raises that line's quantity;
 * setting a quantity of zero or less removes the line; the badge count and the
 * total are folds over the lines.
 */
module Cart {

  import opened Wrappers
  import opened Text
  import opened Lists
  import opened ClientModels

  // ---------------------------------------------------------------------------
  // Keys and lines
  // ---------------------------------------------------------------------------

  /** The line key `${product.id}-${variant.id}`. */
  function CartKey(productId: int, variantId: int): string {
    IntToString(productId) + "-" + IntToString(variantId)
  }

  /** The line created for a key not yet in the cart. */
  function NewLine(product: ProductView, variant: VariantView, quantity: int): CartItem {
    CartItem(CartKey(product.id, variant.id), product.id, product.name, product.sku,
             product.price, product.imageUrl, variant, quantity)
  }

  /** No two lines share an id. */
  predicate UniqueIds(items: seq<CartItem>) {
    forall i, j :: 0 <= i < j < |items| ==> items[i].id != items[j].id
  }

  /** Every line's id is the key of its product and variant. */
  predicate KeysMatch(items: seq<CartItem>) {
    forall i :: 0 <= i < |items| ==> items[i].id == CartKey(items[i].productId, items[i].variant.id)
  }

  /** `list.findIndex(i => i.id === id)`: the first line with that id, or -1. */
  function FindLine(items: seq<CartItem>, id: string): (k: int)
    ensures -1 <= k < |items|
    ensures k >= 0 ==> items[k].id == id && forall i :: 0 <= i < k ==> items[i].id != id
    ensures k == -1 <==> forall i :: 0 <= i < |items| ==> items[i].id != id
    decreases |items|
  {
    if items == [] then -1
    else if items[0].id == id then 0
    else
      var k := FindLine(items[1..], id);
      assert forall i :: 1 <= i < |items| ==> items[i] == items[1..][i - 1];
      if k < 0 then -1 else k + 1
  }

  /** The lines after `add(product, variant, quantity)`. */
  function Added(items: seq<CartItem>, product: ProductView, variant: VariantView, quantity: int): seq<CartItem> {
    var k := FindLine(items, CartKey(product.id, variant.id));
    if k >= 0 then items[k := items[k].(quantity := items[k].quantity + quantity)]
    else items + [NewLine(product, variant, quantity)]
  }

  /** The filter predicate of `remove(id)`: the lines with another id. */
  function OtherLine(id: string): CartItem -> bool {
    (i: CartItem) => i.id != id
  }

  /** The filter predicate picking the lines with this id. */
  function SameLine(id: string): CartItem -> bool {
    (i: CartItem) => i.id == id
  }

  /** The lines after `remove(id)`. */
  function Removed(items: seq<CartItem>, id: string): seq<CartItem> {
    Filter(items, OtherLine(id))
  }

  /** The lines after `setQuantity(id, quantity)` with a positive quantity. */
  function WithQuantity(items: seq<CartItem>, id: string, quantity: int): seq<CartItem> {
    seq(|items|, i requires 0 <= i < |items| => if items[i].id == id then items[i].(quantity := quantity) else items[i])
  }

  /** The lines after `setQuantity(id, quantity)`. */
  function QuantitySet(items: seq<CartItem>, id: string, quantity: int): seq<CartItem> {
    if quantity <= 0 then Removed(items, id) else WithQuantity(items, id, quantity)
  }

  // ---------------------------------------------------------------------------
  // Count and total
  // ---------------------------------------------------------------------------

  /** `count`: the sum of the quantities, folded from the left. */
  function Count(items: seq<CartItem>): int
    decreases |items|
  {
    if items == [] then 0 else Count(items[..|items| - 1]) + items[|items| - 1].quantity
  }

  /** The price of one unit of a line: the product price plus the variant's adjustment, if any. */
  function UnitPrice(item: CartItem): int {
    item.productPrice + item.variant.priceAdjustment.GetOr(0)
  }

  /** What one line adds to the total: unit price times quantity. */
  function Amount(item: CartItem): int {
    UnitPrice(item) * item.quantity
  }

  /** `total`: the sum of the line amounts, folded from the left. */
  function Total(items: seq<CartItem>): int
    decreases |items|
  {
    if items == [] then 0 else Total(items[..|items| - 1]) + Amount(items[|items| - 1])
  }

  // ---------------------------------------------------------------------------
  // The service
  // ---------------------------------------------------------------------------

  /** `CartService`; the list is a signal the methods replace wholesale. */
  class CartService {

    var items: seq<CartItem>

    /** Lines are unique by id and keyed by their product and variant. */
    predicate Valid()
      reads this
    {
      UniqueIds(items) && KeysMatch(items)
    }

    /** The service starts from the lines restored from session storage (`saved`). */
    constructor(saved: seq<CartItem>)
      ensures items == saved
    {
      items := saved;
    }

    /** `add(product, variant, quantity)`. */
    method Add(product: ProductView, variant: VariantView, quantity: int)
      modifies this
      ensures items == Added(old(items), product, variant, quantity)
      ensures old(Valid()) ==> Valid()
    {
      AddedKeepsKeys(items, product, variant, quantity);
      items := Added(items, product, variant, quantity);
    }

    /** `setQuantity(id, quantity)`: a quantity of zero or less is `remove(id)`. */
    method SetQuantity(id: string, quantity: int)
      modifies this
      ensures quantity <= 0 ==> items == Removed(old(items), id)
      ensures quantity > 0 ==> items == WithQuantity(old(items), id, quantity)
      ensures old(Valid()) ==> Valid()
    {
      if quantity <= 0 {
        Remove(id);
        return;
      }
      WithQuantitySpec(items, id, quantity);
      items := WithQuantity(items, id, quantity);
    }

    /** `remove(id)`. */
    method Remove(id: string)
      modifies this
      ensures items == Removed(old(items), id)
      ensures old(Valid()) ==> Valid()
    {
      RemovedSpec(items, id);
      items := Removed(items, id);
    }

    /** `clear()`. */
    method Clear()
      modifies this
      ensures items == [] && Valid()
    {
      items := [];
    }
  }

  // ---------------------------------------------------------------------------
  // Properties
  // ---------------------------------------------------------------------------

  /**
   * Adding a key already present raises that line's quantity in place and changes
   * nothing else; a new key is appended as a fresh line.
   */
  lemma AddedSpec(items: seq<CartItem>, product: ProductView, variant: VariantView, quantity: int)
    ensures var key := CartKey(product.id, variant.id);
      var r := Added(items, product, variant, quantity);
      var k := FindLine(items, key);
      && (k >= 0 ==> |r| == |items| && r[k] == items[k].(quantity := items[k].quantity + quantity)
                     && forall i :: 0 <= i < |items| && i != k ==> r[i] == items[i])
      && (k < 0 ==> r == items + [NewLine(product, variant, quantity)])
  {
    var k := FindLine(items, CartKey(product.id, variant.id));
    if k >= 0 {
      assert Added(items, product, variant, quantity) == items[k := items[k].(quantity := items[k].quantity + quantity)];
    }
  }

  /** Either way `add` keeps the lines unique and keyed. */
  lemma AddedKeepsKeys(items: seq<CartItem>, product: ProductView, variant: VariantView, quantity: int)
    ensures var r := Added(items, product, variant, quantity);
      && (UniqueIds(items) ==> UniqueIds(r))
      && (KeysMatch(items) ==> KeysMatch(r))
  {
    var key := CartKey(product.id, variant.id);
    var k := FindLine(items, key);
    var r := Added(items, product, variant, quantity);
    if k >= 0 {
      assert r == items[k := items[k].(quantity := items[k].quantity + quantity)];
      RaisedKeepsKeys(items, k, quantity);
    } else {
      var line := NewLine(product, variant, quantity);
      assert r == items + [line];
      AppendedKeepsKeys(items, line);
    }
  }

  /** Raising one line's quantity keeps the ids unique and keyed. */
  lemma RaisedKeepsKeys(items: seq<CartItem>, k: nat, quantity: int)
    requires k < |items|
    ensures var r := items[k := items[k].(quantity := items[k].quantity + quantity)];
      && (UniqueIds(items) ==> UniqueIds(r))
      && (KeysMatch(items) ==> KeysMatch(r))
  {
    var r := items[k := items[k].(quantity := items[k].quantity + quantity)];
    assert forall i :: 0 <= i < |r| ==>
      r[i].id == items[i].id && r[i].productId == items[i].productId && r[i].variant == items[i].variant;
  }

  /** Appending a line whose id is its own key and not yet present keeps the ids unique and keyed. */
  lemma AppendedKeepsKeys(items: seq<CartItem>, line: CartItem)
    requires FindLine(items, line.id) == -1
    requires line.id == CartKey(line.productId, line.variant.id)
    ensures UniqueIds(items) ==> UniqueIds(items + [line])
    ensures KeysMatch(items) ==> KeysMatch(items + [line])
  {
    var r := items + [line];
    assert forall i :: 0 <= i < |items| ==> r[i] == items[i] && r[i].id != line.id;
  }

  /** With positive quantity, `setQuantity` changes only the matching line's quantity. */
  lemma WithQuantitySpec(items: seq<CartItem>, id: string, quantity: int)
    ensures var r := WithQuantity(items, id, quantity);
      && |r| == |items|
      && (forall i :: 0 <= i < |items| ==> r[i].id == items[i].id && r[i].variant == items[i].variant
                                           && r[i].productId == items[i].productId)
      && (forall i :: 0 <= i < |items| && items[i].id != id ==> r[i] == items[i])
      && (forall i :: 0 <= i < |items| && items[i].id == id ==> r[i].quantity == quantity)
      && (UniqueIds(items) ==> UniqueIds(r))
      && (KeysMatch(items) ==> KeysMatch(r))
  {
  }

  /** Setting the quantity of an id that is not in the cart changes nothing. */
  lemma QuantitySetAbsent(items: seq<CartItem>, id: string, quantity: int)
    requires FindLine(items, id) == -1
    ensures QuantitySet(items, id, quantity) == items
  {
    if quantity <= 0 {
      FilterAll(items, OtherLine(id));
    } else {
      assert WithQuantity(items, id, quantity) == items;
    }
  }

  /** `remove(id)` leaves no line with that id and keeps every other line, in order. */
  lemma RemovedSpec(items: seq<CartItem>, id: string)
    ensures var r := Removed(items, id);
      && (forall i :: 0 <= i < |r| ==> r[i].id != id && r[i] in items)
      && (forall i :: 0 <= i < |items| && items[i].id != id ==> items[i] in r)
      && (UniqueIds(items) ==> UniqueIds(r))
      && (KeysMatch(items) ==> KeysMatch(r))
  {
    var r := Removed(items, id);
    if UniqueIds(items) {
      FilterPairwise(items, OtherLine(id), (a: CartItem, b: CartItem) => a.id != b.id);
    }
    forall i | 0 <= i < |r| ensures KeysMatch(items) ==> r[i].id == CartKey(r[i].productId, r[i].variant.id) {
      var k :| 0 <= k < |items| && items[k] == r[i];
    }
  }

  /** Removing a line at a known position: the lines before and after it, joined. */
  lemma RemovedAt(items: seq<CartItem>, k: nat)
    requires k < |items| && UniqueIds(items)
    ensures Removed(items, items[k].id) == items[..k] + items[k + 1..]
  {
    var id := items[k].id;
    assert items == items[..k] + [items[k]] + items[k + 1..];
    FilterConcat(items[..k] + [items[k]], items[k + 1..], OtherLine(id));
    FilterConcat(items[..k], [items[k]], OtherLine(id));
    FilterAll(items[..k], OtherLine(id));
    FilterAll(items[k + 1..], OtherLine(id));
    assert Filter([items[k]], OtherLine(id)) == [] by {
      assert [items[k]][..0] == [];
    }
  }

  /** Keys of non-negative ids determine the product and the variant. */
  lemma CartKeyInjective(p1: int, v1: int, p2: int, v2: int)
    requires 0 <= p1 && 0 <= v1 && 0 <= p2 && 0 <= v2
    requires CartKey(p1, v1) == CartKey(p2, v2)
    ensures p1 == p2 && v1 == v2
  {
    var a1, a2 := NatToString(p1), NatToString(p2);
    var b1, b2 := NatToString(v1), NatToString(v2);
    var key := CartKey(p1, v1);
    NatToStringDigits(p1);
    NatToStringDigits(p2);
    assert key == a1 + "-" + b1 && key == a2 + "-" + b2;
    NoDashAmongDigits(a1, b1);
    NoDashAmongDigits(a2, b2);
    assert key[|a1|] == '-' && key[|a2|] == '-';
    SplitAtSameLength(a1, "-", b1, a2, b2);
    NatToStringInjective(p1, p2);
    NatToStringInjective(v1, v2);
  }

  /** Two concatenations around the same separator, with heads of the same length, agree part by part. */
  lemma SplitAtSameLength<T>(a1: seq<T>, sep: seq<T>, b1: seq<T>, a2: seq<T>, b2: seq<T>)
    requires |a1| == |a2| && a1 + sep + b1 == a2 + sep + b2
    ensures a1 == a2 && b1 == b2
  {
    var key := a1 + sep + b1;
    assert a1 == key[..|a1|] == a2;
    assert b1 == key[|a1| + |sep|..] == b2;
  }

  /** Digits, then "-", then anything: no "-" among the digits. */
  lemma NoDashAmongDigits(a: string, b: string)
    requires forall i :: 0 <= i < |a| ==> '0' <= a[i] <= '9'
    ensures forall i :: 0 <= i < |a| ==> (a + "-" + b)[i] != '-'
  {
    forall i | 0 <= i < |a| ensures (a + "-" + b)[i] != '-' {
      assert (a + "-" + b)[i] == a[i];
    }
  }

  /** Adding for one product/variant pair never touches a line of another pair. */
  lemma AddedLeavesOtherPairs(items: seq<CartItem>, product: ProductView, variant: VariantView, quantity: int, i: nat)
    requires KeysMatch(items) && i < |items|
    requires 0 <= product.id && 0 <= variant.id && 0 <= items[i].productId && 0 <= items[i].variant.id
    requires (items[i].productId, items[i].variant.id) != (product.id, variant.id)
    ensures Added(items, product, variant, quantity)[i] == items[i]
  {
    var k := FindLine(items, CartKey(product.id, variant.id));
    if k == i {
      CartKeyInjective(items[i].productId, items[i].variant.id, product.id, variant.id);
    }
  }

  /** The first line with an id is the one `findIndex` finds. */
  lemma FindLineAt(items: seq<CartItem>, id: string, k: nat)
    requires k < |items| && items[k].id == id
    requires forall i :: 0 <= i < k ==> items[i].id != id
    ensures FindLine(items, id) == k
  {
  }

  /** `count` of a list with one line replaced. */
  lemma {:induction false} CountUpdate(items: seq<CartItem>, k: nat, line: CartItem)
    requires k < |items|
    ensures Count(items[k := line]) == Count(items) - items[k].quantity + line.quantity
    ensures Total(items[k := line]) == Total(items) - Amount(items[k]) + Amount(line)
    decreases |items|
  {
    var n := |items| - 1;
    var r := items[k := line];
    if k < n {
      assert r[..n] == items[..n][k := line];
      CountUpdate(items[..n], k, line);
    } else {
      assert r[..n] == items[..n];
    }
  }

  /** An appended line adds its quantity to `count` and its amount to `total`. */
  lemma CountAppend(items: seq<CartItem>, line: CartItem)
    ensures Count(items + [line]) == Count(items) + line.quantity
    ensures Total(items + [line]) == Total(items) + Amount(line)
  {
    assert (items + [line])[..|items|] == items;
  }

  /**
   * `add` raises `count` by the quantity and `total` by the quantity times the unit
   * price of the line it lands on (the price copied when that line was created).
   */
  lemma AddedTotals(items: seq<CartItem>, product: ProductView, variant: VariantView, quantity: int)
    ensures var r := Added(items, product, variant, quantity);
      var k := FindLine(r, CartKey(product.id, variant.id));
      && 0 <= k
      && Count(r) == Count(items) + quantity
      && Total(r) == Total(items) + UnitPrice(r[k]) * quantity
  {
    var key := CartKey(product.id, variant.id);
    var k := FindLine(items, key);
    var r := Added(items, product, variant, quantity);
    if k >= 0 {
      assert r == items[k := items[k].(quantity := items[k].quantity + quantity)];
      RaisedTotals(items, key, k, quantity);
    } else {
      var line := NewLine(product, variant, quantity);
      assert r == items + [line];
      AppendedTotals(items, line);
    }
  }

  /** Appending a line with a new id, as `add` does for a new key. */
  lemma AppendedTotals(items: seq<CartItem>, line: CartItem)
    requires FindLine(items, line.id) == -1
    ensures var r := items + [line];
      && FindLine(r, line.id) == |items|
      && Count(r) == Count(items) + line.quantity
      && Total(r) == Total(items) + UnitPrice(r[|items|]) * line.quantity
  {
    var r := items + [line];
    CountAppend(items, line);
    assert forall i :: 0 <= i < |items| ==> r[i].id == items[i].id;
    FindLineAt(r, line.id, |items|);
    assert r[|items|] == line;
  }

  /** Raising the quantity of the first line with an id, as `add` does for a key already present. */
  lemma RaisedTotals(items: seq<CartItem>, id: string, k: nat, quantity: int)
    requires k < |items| && items[k].id == id
    requires forall i :: 0 <= i < k ==> items[i].id != id
    ensures var r := items[k := items[k].(quantity := items[k].quantity + quantity)];
      && FindLine(r, id) == k
      && Count(r) == Count(items) + quantity
      && Total(r) == Total(items) + UnitPrice(r[k]) * quantity
  {
    var r := items[k := items[k].(quantity := items[k].quantity + quantity)];
    CountUpdate(items, k, r[k]);
    FindLineAt(r, id, k);
    RaisedAmount(items[k], quantity);
  }

  /** A line with a raised quantity adds the raise times its unit price. */
  lemma RaisedAmount(item: CartItem, quantity: int)
    ensures Amount(item.(quantity := item.quantity + quantity)) == Amount(item) + UnitPrice(item) * quantity
  {
    var u := UnitPrice(item);
    assert u * (item.quantity + quantity) == u * item.quantity + u * quantity;
  }

  /** `remove` and the removed lines split `count` and `total` between them. */
  lemma {:induction false} RemovedTotals(items: seq<CartItem>, id: string)
    ensures Count(Removed(items, id)) + Count(Filter(items, SameLine(id))) == Count(items)
    ensures Total(Removed(items, id)) + Total(Filter(items, SameLine(id))) == Total(items)
    decreases |items|
  {
    if items != [] {
      var p := items[..|items| - 1];
      var x := items[|items| - 1];
      RemovedTotals(p, id);
      if x.id == id {
        CountAppend(Filter(p, SameLine(id)), x);
      } else {
        CountAppend(Removed(p, id), x);
      }
    }
  }

  /** In a cart unique by id, `setQuantity(id, q)` with q > 0 moves `count` from the old quantity to q. */
  lemma WithQuantityCount(items: seq<CartItem>, id: string, quantity: int)
    requires UniqueIds(items)
    ensures var k := FindLine(items, id);
      Count(WithQuantity(items, id, quantity)) == (if k < 0 then Count(items) else Count(items) - items[k].quantity + quantity)
  {
    var k := FindLine(items, id);
    if k < 0 {
      assert WithQuantity(items, id, quantity) == items;
    } else {
      assert WithQuantity(items, id, quantity) == items[k := items[k].(quantity := quantity)];
      CountUpdate(items, k, items[k].(quantity := quantity));
    }
  }
}
