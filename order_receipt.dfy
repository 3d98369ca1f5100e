/**
  The order-confirmation e-mail: which rows it shows and the amounts in them.
  Amounts are integer cents; `toFixed(2)` formatting is not modelled.
 */
module OrderReceipt {
  import opened Wrappers
  import opened Text
  import opened Money

  datatype ReceiptProduct = ReceiptProduct(name: string, image: string, size: string, quantity: int, price: int)

  /** The e-mail's props. A missing optional prop is `None`. */
  datatype Props = Props(
    orderId: string,
    customerName: Option<string>,
    customerEmail: Option<string>,
    products: seq<ReceiptProduct>,
    shippingAddress: string,
    total: int,
    subtotal: Option<int>,
    shipping: Option<int>)

  /** What the e-mail shows. A row that is not rendered is `None`. */
  datatype Receipt = Receipt(
    greeting: string,
    orderIdText: string,
    emailRow: Option<string>,
    nameRow: Option<string>,
    lineAmounts: seq<int>,
    subtotalRow: int,
    shippingRow: Option<int>,
    totalRow: int,
    address: string)

  function LineTotal(p: ReceiptProduct): int {
    p.price * p.quantity
  }

  /** A JSX `{x && ...}` test on an optional string: present and non-empty. */
  predicate Shown(x: Option<string>) {
    x.Some? && x.value != ""
  }

  /** `orderId.slice(-6).toUpperCase()`: the last six characters, upper-cased. */
  function ShortOrderId(orderId: string): (r: string)
    ensures |r| == if |orderId| < 6 then |orderId| else 6
    ensures forall i :: 0 <= i < |r| ==> r[i] == UpperChar(orderId[|orderId| - |r| + i])
  {
    ToUpper(LastN(orderId, 6))
  }

  function CalculatedSubtotal(props: Props): int {
    props.subtotal.GetOr(Sum(props.products, LineTotal))
  }

  function CalculatedShipping(props: Props): int {
    props.shipping.GetOr(props.total - CalculatedSubtotal(props))
  }

  function Greeting(name: Option<string>): (r: string)
    ensures Shown(name) ==> r == "Hi " + name.value + ","
    ensures !Shown(name) ==> r == "Hi there,"
  {
    if Shown(name) then "Hi " + name.value + "," else "Hi there,"
  }

  /** The rendered e-mail. */
  function Render(props: Props): (r: Receipt)
    ensures r.orderIdText == "#" + ShortOrderId(props.orderId)
    ensures r.greeting == Greeting(props.customerName)
    ensures r.emailRow.Some? <==> Shown(props.customerEmail)
    ensures r.nameRow.Some? <==> Shown(props.customerName)
    ensures r.emailRow.Some? ==> r.emailRow == props.customerEmail
    ensures r.nameRow.Some? ==> r.nameRow == props.customerName
    ensures |r.lineAmounts| == |props.products|
    ensures forall i :: 0 <= i < |props.products| ==>
              r.lineAmounts[i] == props.products[i].price * props.products[i].quantity
    ensures r.shippingRow.Some? <==> CalculatedShipping(props) > 0
    ensures r.shippingRow.Some? ==> r.shippingRow.value > 0
    // with no shipping prop the totals rows add up, and a hidden shipping row means nothing was charged on top
    ensures props.shipping.None? && r.shippingRow.Some? ==> r.subtotalRow + r.shippingRow.value == r.totalRow
    ensures props.shipping.None? && r.shippingRow.None? ==> r.totalRow <= r.subtotalRow
    ensures r.totalRow == props.total && r.address == props.shippingAddress
    // a given subtotal or shipping prop is the row shown
    ensures props.subtotal.Some? ==> r.subtotalRow == props.subtotal.value
    ensures props.shipping.Some? ==> (r.shippingRow.Some? <==> props.shipping.value > 0)
                                      && (r.shippingRow.Some? ==> r.shippingRow == props.shipping)
  {
    var shipping := CalculatedShipping(props);
    Receipt(
      Greeting(props.customerName),
      "#" + ShortOrderId(props.orderId),
      if Shown(props.customerEmail) then props.customerEmail else None,
      if Shown(props.customerName) then props.customerName else None,
      seq(|props.products|, i requires 0 <= i < |props.products| => LineTotal(props.products[i])),
      CalculatedSubtotal(props),
      if shipping > 0 then Some(shipping) else None,
      props.total,
      props.shippingAddress)
  }

  /** With no subtotal prop, the subtotal row is the sum of the line amounts shown above it. */
  lemma SubtotalIsSumOfLines(props: Props)
    requires props.subtotal.None?
    ensures Render(props).subtotalRow == Sum(Render(props).lineAmounts, (a: int) => a)
  {
    var r := Render(props);
    SumPointwise(props.products, LineTotal, r.lineAmounts, (a: int) => a);
  }
}
