/**
  The product page's purchase panel: the initially selected size, the preorder test, the
  add-to-cart quantity rules and the quantity stepper.
 */
module ProductInfo {
  import opened Wrappers
  import opened Ints
  import opened Json
  import opened Store
  import opened Cart

  /** A size row of the product as the page loads it, in database order. */
  datatype SizeRow = SizeRow(value: string, quantity: int)

  /** A truthy `selectedSize`. */
  predicate Chosen(selected: Option<string>) {
    selected.Some? && selected.value != ""
  }

  /** `useState(product.sizes.length === 0 ? "One Size" : null)`. */
  function InitialSize(sizes: seq<SizeRow>): (r: Option<string>)
    ensures r.Some? <==> |sizes| == 0
    ensures r.Some? ==> r == Some("One Size")
  {
    if |sizes| == 0 then Some("One Size") else None
  }

  /** `sizes.find(s => s.value === value)?.quantity`: the quantity of the first row with that value. */
  function SizeQuantity(sizes: seq<SizeRow>, value: string): (r: Option<int>)
    ensures r.None? <==> forall i :: 0 <= i < |sizes| ==> sizes[i].value != value
    ensures r.Some? ==> exists i :: 0 <= i < |sizes| && sizes[i].value == value && sizes[i].quantity == r.value
  {
    if sizes == [] then None
    else if sizes[0].value == value then Some(sizes[0].quantity)
    else
      var r := SizeQuantity(sizes[1..], value);
      assert forall i :: 1 <= i < |sizes| ==> sizes[i] == sizes[1..][i - 1];
      r
  }

  /** The selected size is a preorder: a size is chosen, the product has sizes, and the first
      row with that value has quantity 0 (a chosen value with no row is not a preorder). */
  function IsPreorder(selected: Option<string>, sizes: seq<SizeRow>): (r: bool)
    ensures r <==> Chosen(selected) && |sizes| > 0 && SizeQuantity(sizes, selected.value) == Some(0)
    ensures r ==> Chosen(selected) && |sizes| > 0 && MaxAvailable(sizes, selected.value) == 0
    ensures r ==> exists i :: 0 <= i < |sizes| && sizes[i].value == selected.value && sizes[i].quantity == 0
    ensures !Chosen(selected) || |sizes| == 0 ==> !r
    ensures Chosen(selected) && (forall i :: 0 <= i < |sizes| ==> sizes[i].quantity != 0) ==> !r
  {
    Chosen(selected) && |sizes| > 0 && SizeQuantity(sizes, selected.value) == Some(0)
  }

  /** Stock the add-to-cart button allows: 10 for a product without sizes, otherwise the size
      row's quantity, and 0 when the value has no row. */
  function MaxAvailable(sizes: seq<SizeRow>, size: string): (r: int)
    ensures |sizes| == 0 ==> r == 10
    ensures |sizes| > 0 && SizeQuantity(sizes, size).None? ==> r == 0
    ensures |sizes| > 0 && SizeQuantity(sizes, size).Some? ==> r == SizeQuantity(sizes, size).value
  {
    if |sizes| == 0 then 10 else SizeQuantity(sizes, size).GetOr(0)
  }

  /** The quantity of the cart line for (id, size), or 0. */
  function ExistingQty(items: seq<CartItem>, id: string, size: string): int {
    match FindLine(items, id, size)
    case Some(i) => items[i].quantity
    case None => 0
  }

  /** What pressing "Add to Cart" does. */
  datatype AddDecision =
    | SelectSizeFirst
    | OutOfStock
    | NoneLeft(maxAvailable: int)
    | AddUnits(quantity: int, maxAvailable: int)

  /** `onAddToCart`'s decision for the current cart, size rows, selection and stepper quantity. */
  function Decide(items: seq<CartItem>, id: string, sizes: seq<SizeRow>, selected: Option<string>, quantity: int): (r: AddDecision)
    ensures r == SelectSizeFirst <==> !Chosen(selected)
    ensures r == OutOfStock <==> Chosen(selected) && |sizes| > 0 && MaxAvailable(sizes, selected.value) <= 0
    ensures r.NoneLeft? <==> Chosen(selected) && r != OutOfStock
                             && MaxAvailable(sizes, selected.value) <= ExistingQty(items, id, selected.value)
    ensures r.NoneLeft? ==> r.maxAvailable == MaxAvailable(sizes, selected.value)
    ensures r.AddUnits? ==> Chosen(selected) && r.maxAvailable == MaxAvailable(sizes, selected.value)
    ensures r.AddUnits? ==> 1 <= r.quantity <= Max(1, quantity)
    ensures r.AddUnits? ==> r.maxAvailable >= 1 && r.quantity <= r.maxAvailable - ExistingQty(items, id, selected.value)
    ensures r.AddUnits? && Max(1, quantity) <= r.maxAvailable - ExistingQty(items, id, selected.value) ==>
              r.quantity == Max(1, quantity)
    ensures r.AddUnits? && Max(1, quantity) > r.maxAvailable - ExistingQty(items, id, selected.value) ==>
              r.quantity == r.maxAvailable - ExistingQty(items, id, selected.value)
  {
    if !Chosen(selected) then SelectSizeFirst
    else
      var size := selected.value;
      var maxAvailable := MaxAvailable(sizes, size);
      if |sizes| > 0 && maxAvailable <= 0 then OutOfStock
      else
        var remaining := Max(0, maxAvailable - ExistingQty(items, id, size));
        if remaining <= 0 then NoneLeft(maxAvailable)
        else AddUnits(Min(Max(1, quantity), remaining), maxAvailable)
  }

  /** `onAddToCart`: only an `AddUnits` decision touches the cart, through `addItem` with the
      decided quantity and `maxAvailable` as the cap. */
  method OnAddToCart(cart: CartStore, id: string, product: Product, sizes: seq<SizeRow>,
                     selected: Option<string>, quantity: int) returns (d: AddDecision)
    modifies cart
    ensures d == Decide(old(cart.items), id, sizes, selected, quantity)
    ensures d.AddUnits? ==> cart.items == AddItemSpec(old(cart.items), id, product, selected.value,
                                                      Finite(d.quantity as real), Some(d.maxAvailable as real))
    ensures !d.AddUnits? ==> cart.items == old(cart.items)
    ensures cart.deliveryMethod == old(cart.deliveryMethod)
  {
    if !Chosen(selected) {
      return SelectSizeFirst;
    }
    var size := selected.value;
    var maxAvailable := MaxAvailable(sizes, size);
    if |sizes| > 0 && maxAvailable <= 0 {
      return OutOfStock;
    }
    var existing := cart.Find(id, size);
    var existingQty := if existing.Some? then cart.items[existing.value].quantity else 0;
    var remaining := Max(0, maxAvailable - existingQty);
    if remaining <= 0 {
      return NoneLeft(maxAvailable);
    }
    var qtyToAdd := Min(Max(1, quantity), remaining);
    cart.AddItem(id, product, size, Finite(qtyToAdd as real), Some(maxAvailable as real));
    d := AddUnits(qtyToAdd, maxAvailable);
  }

  /** An accepted add puts exactly the decided number of units on the (id, size) line, which then
      holds no more than `maxAvailable` and is capped by it; a valid cart stays valid. */
  lemma AddedUnitsLand(items: seq<CartItem>, id: string, product: Product, sizes: seq<SizeRow>,
                       selected: Option<string>, quantity: int)
    requires ValidLines(items)
    requires Decide(items, id, sizes, selected, quantity).AddUnits?
    ensures var d := Decide(items, id, sizes, selected, quantity);
            var r := AddItemSpec(items, id, product, selected.value, Finite(d.quantity as real), Some(d.maxAvailable as real));
            && ValidLines(r)
            && FindLine(r, id, selected.value).Some?
            && var line := r[FindLine(r, id, selected.value).value];
               line.quantity == ExistingQty(items, id, selected.value) + d.quantity
               && line.quantity <= d.maxAvailable
               && line.maxAvailable == Some(d.maxAvailable)
  {
    var d := Decide(items, id, sizes, selected, quantity);
    var size := selected.value;
    var q, m := Finite(d.quantity as real), Some(d.maxAvailable as real);
    var r := AddItemSpec(items, id, product, size, q, m);
    AddItemPreservesValid(items, id, product, size, q, m);
    assert AddQuantity(q) == d.quantity;
    assert CapOf(d.maxAvailable as real) == d.maxAvailable;
    match FindLine(items, id, size)
    case Some(i) =>
      AddItemExistingLine(items, id, product, size, q, m);
      FindLineIsFirst(r, id, size, i);
    case None =>
      AddItemNewLine(items, id, product, size, q, m);
      FindLineIsFirst(r, id, size, |items|);
  }

  // ---------------------------------------------------------------------------
  // the quantity stepper

  /** The stock the stepper counts against: 10 without sizes, the row's quantity when a size is
      chosen (1 when the value has no row), and 1 with nothing chosen. */
  function StepperMax(sizes: seq<SizeRow>, selected: Option<string>): int {
    if |sizes| == 0 then 10
    else if Chosen(selected) then SizeQuantity(sizes, selected.value).GetOr(1)
    else 1
  }

  function StepperExisting(items: seq<CartItem>, id: string, selected: Option<string>): int {
    if Chosen(selected) then ExistingQty(items, id, selected.value) else 0
  }

  /** The largest quantity the stepper offers: `Math.max(1, max - existingQty)`. */
  function StepperLimit(items: seq<CartItem>, id: string, sizes: seq<SizeRow>, selected: Option<string>): (r: int)
    ensures r >= 1
  {
    Max(1, StepperMax(sizes, selected) - StepperExisting(items, id, selected))
  }

  predicate DecrementDisabled(selected: Option<string>, quantity: int) {
    !Chosen(selected) || quantity <= 1
  }

  predicate IncrementDisabled(items: seq<CartItem>, id: string, sizes: seq<SizeRow>, selected: Option<string>, quantity: int) {
    !Chosen(selected)
    || quantity >= Max(1, Max(0, StepperMax(sizes, selected) - StepperExisting(items, id, selected)))
  }

  /** The panel's own state: the selected size and the stepper quantity. */
  class PurchasePanel {
    const sizes: seq<SizeRow>
    var selectedSize: Option<string>
    var quantity: int

    predicate Valid()
      reads this
    {
      quantity >= 1
    }

    constructor (sizes: seq<SizeRow>)
      ensures this.sizes == sizes
      ensures selectedSize == InitialSize(sizes) && quantity == 1
      ensures Valid()
    {
      this.sizes := sizes;
      selectedSize := InitialSize(sizes);
      quantity := 1;
    }

    /** Clicking a size button selects it and resets the quantity to 1. */
    method SelectSize(value: string)
      modifies this
      ensures selectedSize == Some(value) && quantity == 1
      ensures Valid()
    {
      selectedSize := Some(value);
      quantity := 1;
    }

    method Decrement()
      modifies this
      ensures quantity == Max(1, old(quantity) - 1) && selectedSize == old(selectedSize)
      ensures Valid()
    {
      quantity := Max(1, quantity - 1);
    }

    method Increment(items: seq<CartItem>, id: string)
      modifies this
      ensures quantity == Min(StepperLimit(items, id, sizes, selectedSize), old(quantity) + 1)
      ensures selectedSize == old(selectedSize)
      ensures quantity <= StepperLimit(items, id, sizes, selectedSize)
      ensures 1 <= old(quantity) <= StepperLimit(items, id, sizes, selectedSize) ==>
                1 <= quantity <= StepperLimit(items, id, sizes, selectedSize)
      ensures old(Valid()) ==> Valid()
    {
      quantity := Min(StepperLimit(items, id, sizes, selectedSize), quantity + 1);
    }
  }

  /** For a chosen size "+" is disabled exactly at the stepper's limit, and an enabled "+"
      raises the quantity by exactly one. */
  lemma StepperBounds(items: seq<CartItem>, id: string, sizes: seq<SizeRow>, selected: Option<string>, quantity: int)
    ensures var limit := StepperLimit(items, id, sizes, selected);
            && (!IncrementDisabled(items, id, sizes, selected, quantity) ==> Min(limit, quantity + 1) == quantity + 1)
            && (Chosen(selected) ==> (IncrementDisabled(items, id, sizes, selected, quantity) <==> quantity >= limit))
  {
  }
}
