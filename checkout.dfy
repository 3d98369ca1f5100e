/**
  The checkout server action: stock validation of the cart against the size rows, the
  shipping-option table, the payment-session request (line items and compact metadata), and
  the pending order it inserts. The payment provider is a parameter: its reply to the
  session request is given, not computed.
 */
module Checkout {
  import opened Wrappers
  import opened Text
  import opened Json
  import opened Store
  import opened Cart

  // ---------------------------------------------------------------------------
  // stock validation

  /** Only lines with a real size are checked: not empty and not "One Size". */
  predicate NeedsCheck(item: CartItem) {
    item.selectedSize != "" && item.selectedSize != "One Size"
  }

  /** `items.filter(i => i.selectedSize && i.selectedSize !== "One Size")`. */
  function Purchasable(items: seq<CartItem>): (r: seq<CartItem>)
    ensures |r| <= |items|
    ensures forall x :: x in r <==> x in items && NeedsCheck(x)
  {
    if items == [] then []
    else
      var init := Purchasable(items[..|items| - 1]);
      var last := items[|items| - 1];
      assert items == items[..|items| - 1] + [last];
      if NeedsCheck(last) then init + [last] else init
  }

  /** The filter keeps cart order: filtering a concatenation filters each part in turn. */
  lemma {:induction false} PurchasableAppend(a: seq<CartItem>, b: seq<CartItem>)
    ensures Purchasable(a + b) == Purchasable(a) + Purchasable(b)
  {
    if b != [] {
      var ab := a + b;
      assert ab[..|ab| - 1] == a + b[..|b| - 1];
      assert ab[|ab| - 1] == b[|b| - 1];
      PurchasableAppend(a, b[..|b| - 1]);
    } else {
      assert a + b == a;
    }
  }

  function KeyOf(item: CartItem): SizeKey {
    SizeKey(item.id, item.selectedSize)
  }

  /** The product ids of the checked lines. */
  function Ids(checked: seq<CartItem>): (r: set<string>)
    ensures forall x :: x in checked ==> x.id in r
  {
    set x | x in checked :: x.id
  }

  /** The size values of the checked lines. */
  function Values(checked: seq<CartItem>): (r: set<string>)
    ensures forall x :: x in checked ==> x.selectedSize in r
  {
    set x | x in checked :: x.selectedSize
  }

  /** The batched size query: every row whose product id and value both occur among the checked lines. */
  function Snapshot(sizes: map<SizeKey, int>, checked: seq<CartItem>): (byKey: map<SizeKey, int>)
    ensures forall x :: x in checked ==> (KeyOf(x) in byKey <==> KeyOf(x) in sizes)
    ensures forall x :: x in checked && KeyOf(x) in byKey ==> byKey[KeyOf(x)] == sizes[KeyOf(x)]
  {
    map k | k in sizes && k.productId in Ids(checked) && k.value in Values(checked) :: sizes[k]
  }

  /** The message for one checked line, if it fails: no row, or more requested than the row holds. */
  function StockError(item: CartItem, byKey: map<SizeKey, int>): (r: Option<string>)
    ensures r.None? <==> KeyOf(item) in byKey && item.quantity <= byKey[KeyOf(item)]
  {
    var key := KeyOf(item);
    if key !in byKey then
      Some("Size " + item.selectedSize + " is not available for " + item.product.name + ".")
    else if item.quantity > byKey[key] then
      Some("Only " + IntText(byKey[key]) + " left for " + item.product.name + " (Size: " + item.selectedSize + ").")
    else None
  }

  /** The first failing line's message, scanning in cart order. */
  function FirstError(checked: seq<CartItem>, byKey: map<SizeKey, int>): (r: Option<string>)
    ensures r.None? <==> forall i :: 0 <= i < |checked| ==> StockError(checked[i], byKey).None?
    ensures r.Some? ==> exists i :: 0 <= i < |checked| && StockError(checked[i], byKey) == r
                          && forall j :: 0 <= j < i ==> StockError(checked[j], byKey).None?
  {
    if checked == [] then None
    else if StockError(checked[0], byKey).Some? then StockError(checked[0], byKey)
    else
      var r := FirstError(checked[1..], byKey);
      assert forall i :: 1 <= i < |checked| ==> checked[i] == checked[1..][i - 1];
      if r.Some? then
        var k :| 0 <= k < |checked[1..]| && StockError(checked[1..][k], byKey) == r
                 && forall j :: 0 <= j < k ==> StockError(checked[1..][j], byKey).None?;
        assert StockError(checked[k + 1], byKey) == r;
        r
      else r
  }

  /** Scanning a concatenation finds the first part's failure, or else the second part's. */
  lemma {:induction false} FirstErrorAppend(a: seq<CartItem>, b: seq<CartItem>, byKey: map<SizeKey, int>)
    ensures FirstError(a + b, byKey)
            == if FirstError(a, byKey).Some? then FirstError(a, byKey) else FirstError(b, byKey)
  {
    if a == [] {
      assert a + b == b;
    } else {
      assert (a + b)[0] == a[0];
      assert (a + b)[1..] == a[1..] + b;
      FirstErrorAppend(a[1..], b, byKey);
    }
  }

  /** The line at index `i` is checked and fails with `msg`, and every checked line before it passes. */
  predicate FailsFirstAt(items: seq<CartItem>, byKey: map<SizeKey, int>, i: int, msg: Option<string>) {
    && 0 <= i < |items| && NeedsCheck(items[i]) && StockError(items[i], byKey) == msg
    && forall j :: 0 <= j < i && NeedsCheck(items[j]) ==> StockError(items[j], byKey).None?
  }

  /** The scan over the checked lines stops at the first failing checked line in cart order:
      some checked line at index `i` fails with the scan's message, and every checked line
      before it passes. */
  lemma {:induction false} FirstFailingLine(items: seq<CartItem>, byKey: map<SizeKey, int>)
    requires FirstError(Purchasable(items), byKey).Some?
    ensures exists i :: FailsFirstAt(items, byKey, i, FirstError(Purchasable(items), byKey))
  {
    var init := items[..|items| - 1];
    var last := items[|items| - 1];
    assert items == init + [last];
    PurchasableAppend(init, [last]);
    FirstErrorAppend(Purchasable(init), Purchasable([last]), byKey);
    var msg := FirstError(Purchasable(items), byKey);
    if FirstError(Purchasable(init), byKey).Some? {
      FirstFailingLine(init, byKey);
      var i :| FailsFirstAt(init, byKey, i, msg);
      FailureExtends(init, last, byKey, i, msg);
    } else {
      assert Purchasable([last]) == (if NeedsCheck(last) then [last] else []);
      PassedPrefix(init, byKey);
      LastFailsFirst(init, last, byKey, msg);
    }
  }

  /** A first failure stays the first failure when a line is appended. */
  lemma FailureExtends(init: seq<CartItem>, last: CartItem, byKey: map<SizeKey, int>, i: int, msg: Option<string>)
    requires FailsFirstAt(init, byKey, i, msg)
    ensures FailsFirstAt(init + [last], byKey, i, msg)
  {
    assert forall j :: 0 <= j <= i ==> (init + [last])[j] == init[j];
  }

  /** When every checked line of `init` passes, an appended checked line that fails with `msg` is
      the first failure. */
  lemma LastFailsFirst(init: seq<CartItem>, last: CartItem, byKey: map<SizeKey, int>, msg: Option<string>)
    requires forall j :: 0 <= j < |init| && NeedsCheck(init[j]) ==> StockError(init[j], byKey).None?
    requires NeedsCheck(last) && StockError(last, byKey) == msg
    ensures FailsFirstAt(init + [last], byKey, |init|, msg)
  {
    assert forall j :: 0 <= j < |init| ==> (init + [last])[j] == init[j];
  }

  /** When the scan over a cart's checked lines passes, every checked line passes. */
  lemma PassedPrefix(init: seq<CartItem>, byKey: map<SizeKey, int>)
    requires FirstError(Purchasable(init), byKey).None?
    ensures forall j :: 0 <= j < |init| && NeedsCheck(init[j]) ==> StockError(init[j], byKey).None?
  {
    forall j | 0 <= j < |init| && NeedsCheck(init[j])
      ensures StockError(init[j], byKey).None?
    {
      var c := Purchasable(init);
      assert init[j] in c;
      var k :| 0 <= k < |c| && c[k] == init[j];
    }
  }

  /** The validation's verdict: the first failing checked line's message, if any. */
  function StockCheck(sizes: map<SizeKey, int>, items: seq<CartItem>): Option<string> {
    var checked := Purchasable(items);
    if |checked| > 0 then FirstError(checked, Snapshot(sizes, checked)) else None
  }

  /** Every checked line has a size row holding at least the requested quantity. */
  predicate InStock(items: seq<CartItem>, sizes: map<SizeKey, int>) {
    forall x :: x in items && NeedsCheck(x) ==> KeyOf(x) in sizes && x.quantity <= sizes[KeyOf(x)]
  }

  /** A passing validation means every checked line is in stock. */
  lemma PassMeansInStock(items: seq<CartItem>, sizes: map<SizeKey, int>)
    requires StockCheck(sizes, items).None?
    ensures InStock(items, sizes)
  {
    var checked := Purchasable(items);
    var byKey := Snapshot(sizes, checked);
    assert FirstError(checked, byKey).None?;
    PassedLinesInStock(items, sizes, checked, byKey);
  }

  /** Lines that all pass against rows agreeing with `sizes` on their keys are in stock. */
  lemma PassedLinesInStock(items: seq<CartItem>, sizes: map<SizeKey, int>, checked: seq<CartItem>, byKey: map<SizeKey, int>)
    requires checked == Purchasable(items)
    requires forall x :: x in checked ==> (KeyOf(x) in byKey <==> KeyOf(x) in sizes)
    requires forall x :: x in checked && KeyOf(x) in byKey ==> byKey[KeyOf(x)] == sizes[KeyOf(x)]
    requires FirstError(checked, byKey).None?
    ensures InStock(items, sizes)
  {
    forall x | x in items && NeedsCheck(x)
      ensures KeyOf(x) in sizes && x.quantity <= sizes[KeyOf(x)]
    {
      var i :| 0 <= i < |checked| && checked[i] == x;
      assert StockError(checked[i], byKey).None?;
    }
  }

  /** A failing validation reports the first failing checked line in cart order, judged
      against the size rows themselves. */
  lemma FailingCheckedLine(items: seq<CartItem>, sizes: map<SizeKey, int>)
    requires StockCheck(sizes, items).Some?
    ensures exists i :: FailsFirstAt(items, sizes, i, StockCheck(sizes, items))
  {
    var checked := Purchasable(items);
    FailingLineAgainstRows(items, sizes, checked, Snapshot(sizes, checked));
  }

  /** The first failing line against rows agreeing with `sizes` on the checked keys fails the
      same way against `sizes`. */
  lemma FailingLineAgainstRows(items: seq<CartItem>, sizes: map<SizeKey, int>, checked: seq<CartItem>, byKey: map<SizeKey, int>)
    requires checked == Purchasable(items)
    requires forall x :: x in checked ==> (KeyOf(x) in byKey <==> KeyOf(x) in sizes)
    requires forall x :: x in checked && KeyOf(x) in byKey ==> byKey[KeyOf(x)] == sizes[KeyOf(x)]
    requires FirstError(checked, byKey).Some?
    ensures exists i :: FailsFirstAt(items, sizes, i, FirstError(checked, byKey))
  {
    var msg := FirstError(checked, byKey);
    FirstFailingLine(items, byKey);
    var i :| FailsFirstAt(items, byKey, i, msg);
    forall j | 0 <= j <= i && NeedsCheck(items[j])
      ensures StockError(items[j], sizes) == StockError(items[j], byKey)
    {
      assert items[j] in checked;
      SameVerdict(items[j], sizes, byKey);
    }
    FailureAgainstRows(items, sizes, byKey, i, msg);
  }

  /** A first failure stays the first failure against rows that give the lines up to it the same verdicts. */
  lemma FailureAgainstRows(items: seq<CartItem>, sizes: map<SizeKey, int>, byKey: map<SizeKey, int>, i: int, msg: Option<string>)
    requires FailsFirstAt(items, byKey, i, msg)
    requires forall j :: 0 <= j <= i && NeedsCheck(items[j]) ==> StockError(items[j], sizes) == StockError(items[j], byKey)
    ensures FailsFirstAt(items, sizes, i, msg)
  {
  }

  /** Rows that agree on a line's key give that line the same verdict. */
  lemma SameVerdict(x: CartItem, sizes: map<SizeKey, int>, byKey: map<SizeKey, int>)
    requires KeyOf(x) in byKey <==> KeyOf(x) in sizes
    requires KeyOf(x) in byKey ==> byKey[KeyOf(x)] == sizes[KeyOf(x)]
    ensures StockError(x, sizes) == StockError(x, byKey)
  {
  }

  /** A cart in stock passes validation. */
  lemma InStockPasses(items: seq<CartItem>, sizes: map<SizeKey, int>)
    requires InStock(items, sizes)
    ensures StockCheck(sizes, items).None?
  {
    var checked := Purchasable(items);
    var byKey := Snapshot(sizes, checked);
    forall i | 0 <= i < |checked|
      ensures StockError(checked[i], byKey).None?
    {
      assert checked[i] in checked;
    }
  }

  /** Validation passes exactly when every checked line is in stock in the size rows. */
  lemma ValidationPassesIffInStock(items: seq<CartItem>, sizes: map<SizeKey, int>)
    ensures StockCheck(sizes, items).None? <==> InStock(items, sizes)
  {
    if StockCheck(sizes, items).None? {
      PassMeansInStock(items, sizes);
    }
    if InStock(items, sizes) {
      InStockPasses(items, sizes);
    }
  }

  /** The validation scan: returns at the first failing line. */
  method CheckStock(checked: seq<CartItem>, byKey: map<SizeKey, int>) returns (err: Option<string>)
    ensures err == FirstError(checked, byKey)
  {
    var i := 0;
    while i < |checked|
      invariant 0 <= i <= |checked|
      invariant FirstError(checked, byKey) == FirstError(checked[i..], byKey)
    {
      assert checked[i..][1..] == checked[i + 1..];
      var e := StockError(checked[i], byKey);
      if e.Some? {
        return e;
      }
      i := i + 1;
    }
    return None;
  }

  /** The server-side stock check: the checked lines, the batched query, then the scan. */
  method ValidateStock(sizes: map<SizeKey, int>, items: seq<CartItem>) returns (err: Option<string>)
    ensures err == StockCheck(sizes, items)
  {
    var checked := Purchasable(items);
    err := None;
    if |checked| > 0 {
      err := CheckStock(checked, Snapshot(sizes, checked));
    }
  }

  // ---------------------------------------------------------------------------
  // the payment-session request

  /** A delivery estimate in business days. */
  datatype Estimate = Estimate(minDays: int, maxDays: int)

  /** A fixed-amount shipping rate; `amount` in cents of CAD. */
  datatype ShippingOption = ShippingOption(amount: int, displayName: string, estimate: Option<Estimate>)

  datatype ShippingPlan = ShippingPlan(options: seq<ShippingOption>, allowedCountries: seq<string>)

  /** The shipping options and address countries for a delivery method. */
  function ShippingFor(deliveryMethod: string): (r: ShippingPlan)
    ensures |r.options| <= 1
    ensures r.options == [] <==> deliveryMethod != "standard" && deliveryMethod != "express" && deliveryMethod != "us"
    ensures r.allowedCountries == if deliveryMethod == "us" then ["US"] else ["CA"]
  {
    if deliveryMethod == "standard" then
      ShippingPlan([ShippingOption(2000, "Canada Post Standard", Some(Estimate(2, 2)))], ["CA"])
    else if deliveryMethod == "express" then
      ShippingPlan([ShippingOption(3700, "Express Delivery (Same/Next Day)", None)], ["CA"])
    else if deliveryMethod == "us" then
      ShippingPlan([ShippingOption(3000, "US Shipping", Some(Estimate(5, 10)))], ["US"])
    else ShippingPlan([], ["CA"])
  }

  /** A line item: quantity, display name, the first product image (absent when there is none)
      and the unit amount in cents. */
  datatype LineItem = LineItem(quantity: int, name: string, image: Option<string>, unitAmount: int)

  function LineItemOf(item: CartItem): LineItem {
    LineItem(
      item.quantity,
      item.product.name + " - Size: " + item.selectedSize,
      if |item.product.images| > 0 then Some(item.product.images[0]) else None,
      item.product.price)
  }

  /** One line item per cart line, in cart order. */
  function LineItems(items: seq<CartItem>): (r: seq<LineItem>)
    ensures |r| == |items|
    ensures forall i :: 0 <= i < |items| ==> r[i] == LineItemOf(items[i])
  {
    seq(|items|, i requires 0 <= i < |items| => LineItemOf(items[i]))
  }

  /** The compact `{id, size, quantity}` object of one cart line. */
  function CompactItem(item: CartItem): Json {
    JObj(map["id" := JStr(item.id), "size" := JStr(item.selectedSize), "quantity" := IntJson(item.quantity)])
  }

  /** The `cartItems` metadata value: the compact objects, in cart order. */
  function EncodeCartItems(items: seq<CartItem>): (r: Json)
    ensures r.JArr? && |r.elems| == |items|
    ensures forall i :: 0 <= i < |items| ==> r.elems[i] == CompactItem(items[i])
  {
    JArr(seq(|items|, i requires 0 <= i < |items| => CompactItem(items[i])))
  }

  datatype Metadata = Metadata(orderId: string, deliveryMethod: string, cartItems: Json)

  /** The session request; `shippingOptions` is `None` when the method has no options. */
  datatype SessionRequest = SessionRequest(
    lineItems: seq<LineItem>,
    allowedCountries: seq<string>,
    shippingOptions: Option<seq<ShippingOption>>,
    metadata: Metadata,
    successUrl: string,
    cancelUrl: string)

  function SessionRequestFor(origin: string, orderId: string, items: seq<CartItem>, deliveryMethod: string): (r: SessionRequest)
    ensures r.shippingOptions.None? <==> ShippingFor(deliveryMethod).options == []
    ensures r.metadata == Metadata(orderId, deliveryMethod, EncodeCartItems(items))
    ensures |r.lineItems| == |items|
  {
    var plan := ShippingFor(deliveryMethod);
    SessionRequest(
      LineItems(items),
      plan.allowedCountries,
      if |plan.options| > 0 then Some(plan.options) else None,
      Metadata(orderId, deliveryMethod, EncodeCartItems(items)),
      origin + "/checkout/success?session_id={CHECKOUT_SESSION_ID}",
      origin + "/cart")
  }

  /** The unpaid order: one order item per cart line, "One Size" lines included. */
  function PendingOrder(items: seq<CartItem>): (r: Order)
    ensures !r.isPaid && |r.items| == |items|
    ensures forall i :: 0 <= i < |items| ==>
              r.items[i] == OrderItem(items[i].id, items[i].quantity, items[i].selectedSize)
  {
    Order(false, seq(|items|, i requires 0 <= i < |items| => OrderItem(items[i].id, items[i].quantity, items[i].selectedSize)),
          "", "", "", "", "")
  }

  // ---------------------------------------------------------------------------
  // the action

  /** The payment provider's answer to the session request; a session without a URL has `url == ""`. */
  datatype GatewayReply = SessionFailed | SessionCreated(url: string)

  datatype CheckoutResult = Failed(message: string) | Redirect(url: string) | NoRedirect

  const GenericFailure := "Failed to create Stripe checkout session."

  datatype CheckoutOutcome = CheckoutOutcome(orders: map<string, Order>, result: CheckoutResult, request: Option<SessionRequest>)

  /** The whole action on the order and size maps. `newOrderId` is the id the database assigns;
      `orderCreateFails` says the insert throws (an id already in use counts as that too). */
  function CheckoutSpec(orders: map<string, Order>, sizes: map<SizeKey, int>, origin: string,
                        items: seq<CartItem>, deliveryMethod: string, newOrderId: string,
                        orderCreateFails: bool, reply: GatewayReply): CheckoutOutcome
  {
    if origin == "" then CheckoutOutcome(orders, Failed("Missing origin header"), None)
    else
      var err := StockCheck(sizes, items);
      if err.Some? then CheckoutOutcome(orders, Failed(err.value), None)
      else if orderCreateFails || newOrderId in orders then CheckoutOutcome(orders, Failed(GenericFailure), None)
      else
        var orders' := orders[newOrderId := PendingOrder(items)];
        var request := SessionRequestFor(origin, newOrderId, items, deliveryMethod);
        match reply
        case SessionFailed => CheckoutOutcome(orders', Failed(GenericFailure), Some(request))
        case SessionCreated(url) =>
          CheckoutOutcome(orders', if url != "" then Redirect(url) else NoRedirect, Some(request))
  }

  method Checkout(db: Database, origin: string, items: seq<CartItem>, deliveryMethod: string,
                  newOrderId: string, orderCreateFails: bool, reply: GatewayReply)
    returns (result: CheckoutResult, request: Option<SessionRequest>)
    modifies db
    ensures CheckoutOutcome(db.orders, result, request)
            == CheckoutSpec(old(db.orders), old(db.sizes), origin, items, deliveryMethod, newOrderId, orderCreateFails, reply)
    ensures db.sizes == old(db.sizes) && db.products == old(db.products)
    ensures db.categories == old(db.categories) && db.preorders == old(db.preorders)
  {
    ghost var spec := CheckoutSpec(db.orders, db.sizes, origin, items, deliveryMethod, newOrderId, orderCreateFails, reply);
    if origin == "" {
      return Failed("Missing origin header"), None;
    }
    var err := ValidateStock(db.sizes, items);
    if err.Some? {
      assert spec == CheckoutOutcome(db.orders, Failed(err.value), None);
      return Failed(err.value), None;
    }
    if orderCreateFails || newOrderId in db.orders {
      assert spec == CheckoutOutcome(db.orders, Failed(GenericFailure), None);
      return Failed(GenericFailure), None;
    }
    db.orders := db.orders[newOrderId := PendingOrder(items)];
    request := Some(SessionRequestFor(origin, newOrderId, items, deliveryMethod));
    match reply {
      case SessionFailed =>
        assert spec == CheckoutOutcome(db.orders, Failed(GenericFailure), request);
        return Failed(GenericFailure), request;
      case SessionCreated(url) =>
        assert spec.request == request && spec.orders == db.orders;
        result := if url != "" then Redirect(url) else NoRedirect;
    }
  }

  // ---------------------------------------------------------------------------
  // properties

  /** A missing origin fails before any lookup or write. */
  lemma MissingOriginWritesNothing(orders: map<string, Order>, sizes: map<SizeKey, int>, items: seq<CartItem>,
                                   deliveryMethod: string, newOrderId: string, orderCreateFails: bool, reply: GatewayReply)
    ensures CheckoutSpec(orders, sizes, "", items, deliveryMethod, newOrderId, orderCreateFails, reply)
            == CheckoutOutcome(orders, Failed("Missing origin header"), None)
  {
  }

  /** A cart with a checked line out of stock fails with that first line's message, and no order
      is created and no session requested. */
  lemma OutOfStockCreatesNothing(orders: map<string, Order>, sizes: map<SizeKey, int>, origin: string,
                                 items: seq<CartItem>, deliveryMethod: string, newOrderId: string,
                                 orderCreateFails: bool, reply: GatewayReply)
    requires origin != "" && !InStock(items, sizes)
    ensures var out := CheckoutSpec(orders, sizes, origin, items, deliveryMethod, newOrderId, orderCreateFails, reply);
            && out.orders == orders && out.request.None?
            && out.result.Failed?
            && exists i :: FailsFirstAt(items, sizes, i, Some(out.result.message))
  {
    ValidationPassesIffInStock(items, sizes);
    FailingCheckedLine(items, sizes);
  }

  /** An in-stock cart whose order insert succeeds creates exactly one unpaid order under the new
      id, with one item per cart line, and requests a session carrying that id. */
  lemma InStockCreatesPendingOrder(orders: map<string, Order>, sizes: map<SizeKey, int>, origin: string,
                                   items: seq<CartItem>, deliveryMethod: string, newOrderId: string, reply: GatewayReply)
    requires origin != "" && InStock(items, sizes) && newOrderId !in orders
    ensures var out := CheckoutSpec(orders, sizes, origin, items, deliveryMethod, newOrderId, false, reply);
            && out.orders == orders[newOrderId := PendingOrder(items)]
            && out.request == Some(SessionRequestFor(origin, newOrderId, items, deliveryMethod))
            && out.request.value.metadata.orderId == newOrderId
            && (out.result.Failed? <==> reply.SessionFailed?)
            && (out.result.Failed? ==> out.result.message == GenericFailure)
  {
    InStockPasses(items, sizes);
  }

  /** A failing order insert returns the generic failure and writes nothing. */
  lemma OrderInsertFailureWritesNothing(orders: map<string, Order>, sizes: map<SizeKey, int>, origin: string,
                                        items: seq<CartItem>, deliveryMethod: string, newOrderId: string, reply: GatewayReply)
    requires origin != "" && InStock(items, sizes)
    ensures CheckoutSpec(orders, sizes, origin, items, deliveryMethod, newOrderId, true, reply)
            == CheckoutOutcome(orders, Failed(GenericFailure), None)
  {
    InStockPasses(items, sizes);
  }

  /** Lines without a real size never block checkout, whatever their quantity. */
  lemma UncheckedLinesNeverBlock(items: seq<CartItem>, sizes: map<SizeKey, int>)
    requires forall x :: x in items ==> !NeedsCheck(x)
    ensures InStock(items, sizes)
    ensures Purchasable(items) == []
  {
  }
}
