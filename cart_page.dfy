/**
  The cart page's order summary: the subtotal, the shipping fee for the chosen delivery
  method, the order total, and when the quantity and checkout buttons are enabled.
  The fee table is written in whole dollars, as on the page, and read in cents.
 */
module CartPage {
  import opened Wrappers
  import opened Json
  import opened Money
  import opened Store
  import opened Cart
  import opened Checkout

  function LineTotal(item: CartItem): int {
    item.product.price * item.quantity
  }

  /** `cart.items.reduce((total, item) => total + item.price * item.quantity, 0)`. */
  function Subtotal(items: seq<CartItem>): int {
    Sum(items, LineTotal)
  }

  /** The page's fee table in dollars: standard 20, express 37, us 30, anything else free. */
  function ShippingDollars(m: DeliveryMethod): int {
    if m == Standard then 20
    else if m == Express then 37
    else if m == Us then 30
    else 0
  }

  function ShippingCost(m: DeliveryMethod): int {
    Cents(ShippingDollars(m))
  }

  function OrderTotal(items: seq<CartItem>, m: DeliveryMethod): int {
    Subtotal(items) + ShippingCost(m)
  }

  /** What the shipping line shows. */
  datatype ShippingLabel = Free | Fee(cents: int)

  function ShippingLabelOf(m: DeliveryMethod): (r: ShippingLabel)
    ensures r == Free <==> m == Pickup
    ensures r.Fee? ==> r.cents == ShippingCost(m) && r.cents > 0
  {
    var cost := ShippingCost(m);
    if cost == 0 then Free else Fee(cost)
  }

  /** The checkout button is disabled exactly for an empty cart, which has nothing to pay for but
      the shipping fee. */
  function CheckoutDisabled(items: seq<CartItem>): (r: bool)
    ensures r <==> items == []
    ensures r ==> Subtotal(items) == 0 && forall m :: OrderTotal(items, m) == ShippingCost(m)
  {
    |items| == 0
  }

  predicate DecrementDisabled(item: CartItem) {
    item.quantity <= 1
  }

  predicate IncrementDisabled(item: CartItem) {
    item.maxAvailable.Some? && item.quantity >= item.maxAvailable.value
  }

  /** The page charges what the payment session charges: a method is free on the page exactly
      when checkout offers no shipping option for it, and otherwise the one option's amount is
      the page's fee. */
  lemma ShippingAgreesWithCheckout(m: DeliveryMethod)
    ensures ShippingFor(MethodName(m)).options == [] <==> ShippingCost(m) == 0
    ensures ShippingCost(m) != 0 ==> ShippingFor(MethodName(m)).options[0].amount == ShippingCost(m)
  {
  }

  /** With non-negative prices and quantities the subtotal is non-negative and the total covers it. */
  lemma TotalCoversSubtotal(items: seq<CartItem>, m: DeliveryMethod)
    requires forall i :: 0 <= i < |items| ==> items[i].product.price >= 0 && items[i].quantity >= 0
    ensures 0 <= Subtotal(items) <= OrderTotal(items, m)
  {
    forall i | 0 <= i < |items|
      ensures LineTotal(items[i]) >= 0
    {
      assert items[i].product.price >= 0 && items[i].quantity >= 0;
    }
    SumNonNegative(items, LineTotal);
  }

  /** Dropping the line at `i` lowers the subtotal by that line's amount. */
  lemma SubtotalWithoutAt(items: seq<CartItem>, i: nat)
    requires i < |items|
    ensures Subtotal(items[..i] + items[i + 1..]) == Subtotal(items) - LineTotal(items[i])
  {
    var pre, line, post := items[..i], [items[i]], items[i + 1..];
    assert items == (pre + line) + post;
    SumAppend(pre + line, post, LineTotal);
    SumAppend(pre, line, LineTotal);
    SumAppend(pre, post, LineTotal);
    assert line[..0] == [];
  }

  /** Removing a line lowers the subtotal by exactly that line's amount. */
  lemma SubtotalAfterRemove(items: seq<CartItem>, id: string, size: string)
    requires UniqueLines(items)
    ensures FindLine(items, id, size).None? ==> Subtotal(Without(items, id, size)) == Subtotal(items)
    ensures FindLine(items, id, size).Some? ==>
              Subtotal(Without(items, id, size)) == Subtotal(items) - LineTotal(items[FindLine(items, id, size).value])
  {
    RemoveKeepsOthers(items, id, size);
    var found := FindLine(items, id, size);
    if found.Some? {
      SubtotalWithoutAt(items, found.value);
    }
  }

  /** Adding a product not yet in the cart raises the subtotal by its price times the units
      that `addItem` actually puts on the new line. */
  lemma SubtotalAfterNewLine(items: seq<CartItem>, id: string, product: Product, size: string,
                             quantity: Num, maxAvailable: Option<real>)
    requires FindLine(items, id, size).None?
    ensures var r := AddItemSpec(items, id, product, size, quantity, maxAvailable);
            Subtotal(r) == Subtotal(items) + product.price * r[|r| - 1].quantity
  {
    AddItemNewLine(items, id, product, size, quantity, maxAvailable);
    var r := AddItemSpec(items, id, product, size, quantity, maxAvailable);
    assert r[..|r| - 1] == items;
  }

  /** An enabled "-" on a line of a valid cart lowers exactly that line by one, keeps it in
      the cart, and leaves every other line alone. */
  lemma DecrementButton(items: seq<CartItem>, i: nat)
    requires ValidLines(items) && i < |items|
    requires !DecrementDisabled(items[i])
    ensures var r := SetQuantitySpec(items, items[i].id, items[i].selectedSize, Finite((items[i].quantity - 1) as real));
            && |r| == |items| && r[i] == items[i].(quantity := items[i].quantity - 1)
            && (forall j :: 0 <= j < |items| && j != i ==> r[j] == items[j])
            && ValidLines(r)
  {
    var line := items[i];
    var q := Finite((line.quantity - 1) as real);
    forall j | 0 <= j < i
      ensures !IsLine(items[j], line.id, line.selectedSize)
    {
    }
    FindLineIsFirst(items, line.id, line.selectedSize, i);
    assert SetQuantityValue(q) == line.quantity - 1;
    SetQuantityMatched(items, line.id, line.selectedSize, q);
    SetQuantityPreservesValid(items, line.id, line.selectedSize, q);
  }

  /** An enabled "+" on a line with a non-negative quantity raises exactly that line by one,
      never above its cap, and leaves every other line alone. */
  lemma IncrementButton(items: seq<CartItem>, i: nat)
    requires ValidLines(items) && i < |items| && items[i].quantity >= 0
    requires !IncrementDisabled(items[i])
    ensures var r := SetQuantitySpec(items, items[i].id, items[i].selectedSize, Finite((items[i].quantity + 1) as real));
            && |r| == |items| && r[i] == items[i].(quantity := items[i].quantity + 1)
            && (forall j :: 0 <= j < |items| && j != i ==> r[j] == items[j])
            && ValidLines(r)
  {
    var line := items[i];
    var q := Finite((line.quantity + 1) as real);
    forall j | 0 <= j < i
      ensures !IsLine(items[j], line.id, line.selectedSize)
    {
    }
    FindLineIsFirst(items, line.id, line.selectedSize, i);
    assert SetQuantityValue(q) == line.quantity + 1;
    SetQuantityMatched(items, line.id, line.selectedSize, q);
    SetQuantityPreservesValid(items, line.id, line.selectedSize, q);
  }
}
