/**
  The admin order-detail modal: the delivery label and fee looked up by method name, the
  subtotal, total and item count, and how each line and the header are shown.
 */
module OrderDetail {
  import opened Wrappers
  import opened Text
  import opened Money
  import opened Store
  import opened Cart
  import opened OrderReceipt
  import CartPage

  /** An order as the admin views load it: its id, delivery method and items with their products. */
  datatype OrderView = OrderView(id: string, deliveryMethod: string, lines: seq<OrderLine>)

  const DeliveryLabels: map<string, string> := map[
    "standard" := "Standard Delivery (Canada Post - 2 Business Days)",
    "express" := "Express Delivery (Same/Next Day)",
    "pickup" := "Pickup (Richmond Hill)",
    "us" := "US Shipping"]

  /** Fees in whole dollars. */
  const DeliveryPrices: map<string, int> := map["standard" := 20, "express" := 37, "pickup" := 0, "us" := 30]

  /** `deliveryMethodLabels[m] || m`: an unknown method is shown as it is stored. */
  function DeliveryLabel(m: string): (r: string)
    ensures m !in DeliveryLabels ==> r == m
    ensures m in DeliveryLabels ==> r == DeliveryLabels[m] && r != ""
  {
    if m in DeliveryLabels && DeliveryLabels[m] != "" then DeliveryLabels[m] else m
  }

  /** `deliveryMethodPrices[m] || 0`, in cents. */
  function ShippingCost(m: string): (r: int)
    ensures r >= 0
    ensures m !in DeliveryPrices ==> r == 0
  {
    if m in DeliveryPrices then Cents(DeliveryPrices[m]) else 0
  }

  function Subtotal(lines: seq<OrderLine>): int {
    Sum(lines, LineAmount)
  }

  function Total(o: OrderView): int {
    Subtotal(o.lines) + ShippingCost(o.deliveryMethod)
  }

  function Units(line: OrderLine): int {
    line.item.quantity
  }

  function TotalQuantity(lines: seq<OrderLine>): int {
    Sum(lines, Units)
  }

  /** One item as the modal lists it. */
  datatype LineView = LineView(name: string, sizeText: string, quantity: int, amount: int)

  /** The modal's content; `shipping` is `None` where it shows "FREE". */
  datatype Summary = Summary(
    header: string,
    itemCount: int,
    lines: seq<LineView>,
    deliveryLabel: string,
    subtotal: int,
    shipping: Option<int>,
    total: int)

  function LineViewOf(line: OrderLine): LineView {
    LineView(line.product.name, if line.item.size != "" then line.item.size else "One Size",
             line.item.quantity, LineAmount(line))
  }

  function Amount(v: LineView): int {
    v.amount
  }

  function SummaryOf(o: OrderView): (s: Summary)
    ensures s.header == "Order #" + ShortOrderId(o.id)
    ensures |s.lines| == |o.lines|
    ensures forall i :: 0 <= i < |o.lines| ==>
              && s.lines[i].amount == o.lines[i].product.price * o.lines[i].item.quantity
              && s.lines[i].quantity == o.lines[i].item.quantity
              && (s.lines[i].sizeText == "One Size" <==> o.lines[i].item.size == "" || o.lines[i].item.size == "One Size")
              && (o.lines[i].item.size != "" ==> s.lines[i].sizeText == o.lines[i].item.size)
    ensures s.shipping.None? <==> ShippingCost(o.deliveryMethod) == 0
    ensures s.shipping.Some? ==> s.shipping.value > 0
  {
    var shipping := ShippingCost(o.deliveryMethod);
    Summary(
      "Order #" + ShortOrderId(o.id),
      TotalQuantity(o.lines),
      seq(|o.lines|, i requires 0 <= i < |o.lines| => LineViewOf(o.lines[i])),
      DeliveryLabel(o.deliveryMethod),
      Subtotal(o.lines),
      if shipping == 0 then None else Some(shipping),
      Total(o))
  }

  /** The modal adds up: its subtotal is the sum of the amounts it lists, its total is that
      subtotal plus the shown fee, and its item count is the sum of the listed quantities. */
  lemma SummaryAddsUp(o: OrderView)
    ensures var s := SummaryOf(o);
            && s.subtotal == Sum(s.lines, Amount)
            && s.total == s.subtotal + s.shipping.GetOr(0)
            && s.itemCount == Sum(s.lines, (v: LineView) => v.quantity)
  {
    var s := SummaryOf(o);
    SumPointwise(o.lines, LineAmount, s.lines, Amount);
    SumPointwise(o.lines, Units, s.lines, (v: LineView) => v.quantity);
  }

  /** The modal, the cart page and therefore checkout charge the same fee for every method the
      cart can hold. */
  lemma FeeTablesAgree(m: DeliveryMethod)
    ensures ShippingCost(MethodName(m)) == CartPage.ShippingCost(m)
  {
  }

  /** Only the four known methods cost anything. */
  lemma UnknownMethodIsFree(m: string)
    requires m != "standard" && m != "express" && m != "us"
    ensures ShippingCost(m) == 0
  {
  }

  /** With positive quantities the item count counts units, not lines: it is at least the number of lines. */
  lemma {:induction false} ItemCountAtLeastLines(lines: seq<OrderLine>)
    requires forall i :: 0 <= i < |lines| ==> lines[i].item.quantity >= 1
    ensures TotalQuantity(lines) >= |lines|
  {
    if lines != [] {
      ItemCountAtLeastLines(lines[..|lines| - 1]);
    }
  }
}
