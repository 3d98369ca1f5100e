/**
  The payment-provider webhook: it verifies the request, and for a completed checkout session
  marks the order paid (with a three-step fallback on the fields it writes), decrements stock
  line by line, and decides whether a confirmation e-mail is sent.

  The signature check, database faults and whether the mailer is configured are inputs.
  Orders and size rows are the maps of `Store.Database`.
 */
module Webhook {
  import opened Wrappers
  import opened Ints
  import opened Text
  import opened Json
  import opened Money
  import opened Store
  import opened Cart
  import opened Checkout
  import opened OrderReceipt

  // ---------------------------------------------------------------------------
  // formatAddress

  /** A postal address from the session's customer details; a missing part is "". */
  datatype Address = Address(line1: string, line2: string, city: string, state: string, postalCode: string, country: string)

  function Street(a: Address): string {
    Join(NonEmpty([a.line1, a.line2]), " ")
  }

  function CityStateZip(a: Address): string {
    Join(NonEmpty([a.city, a.state, a.postalCode]), ", ")
  }

  /** `formatAddress`: street, then city/state/postal code, then the country when present. */
  function FormatAddress(address: Option<Address>): (r: string)
    ensures address.None? ==> r == ""
  {
    match address
    case None => ""
    case Some(a) =>
      var base := Join(NonEmpty([Street(a), CityStateZip(a)]), ", ");
      if a.country != "" then Join(NonEmpty([base, a.country]), ", ") else base
  }

  /** Joining the non-empty ones of three parts equals joining the first two, then appending
      the third when it is non-empty. */
  lemma JoinThreeInTwoSteps(s: string, c: string, k: string)
    ensures var base := Join(NonEmpty([s, c]), ", ");
            Join(NonEmpty([s, c, k]), ", ") == if k != "" then Join(NonEmpty([base, k]), ", ") else base
  {
    var xs := NonEmpty([s, c]);
    var base := Join(xs, ", ");
    NonEmptyThree(s, c, k);
    if k == "" {
      assert NonEmpty([k]) == [];
      assert xs + [] == xs;
    } else {
      assert NonEmpty([k]) == [k];
      JoinSnoc(xs, k, ", ");
      JoinNonEmptyIsEmpty([s, c], ", ");
      NonEmptyPairEmpty(s, c);
      NonEmptyPair(base, k);
      if base != "" {
        assert Join([base, k], ", ") == base + ", " + Join([k], ", ");
      }
    }
  }

  /** The address is the non-empty ones among street, city/state/postal code and country, joined
      with ", " in that order. */
  lemma FormatAddressIsJoinOfParts(a: Address)
    ensures FormatAddress(Some(a)) == Join(NonEmpty([Street(a), CityStateZip(a), a.country]), ", ")
  {
    JoinThreeInTwoSteps(Street(a), CityStateZip(a), a.country);
  }

  /** The address is empty exactly when all six of its parts are. */
  lemma FormatAddressEmptyIff(a: Address)
    ensures FormatAddress(Some(a)) == "" <==>
              a.line1 == "" && a.line2 == "" && a.city == "" && a.state == "" && a.postalCode == "" && a.country == ""
  {
    FormatAddressIsJoinOfParts(a);
    JoinNonEmptyIsEmpty([Street(a), CityStateZip(a), a.country], ", ");
    JoinNonEmptyIsEmpty([a.line1, a.line2], " ");
    JoinNonEmptyIsEmpty([a.city, a.state, a.postalCode], ", ");
    var parts := [Street(a), CityStateZip(a), a.country];
    assert parts[0] == Street(a) && parts[1] == CityStateZip(a) && parts[2] == a.country;
    var street := [a.line1, a.line2];
    assert street[0] == a.line1 && street[1] == a.line2;
    var csz := [a.city, a.state, a.postalCode];
    assert csz[0] == a.city && csz[1] == a.state && csz[2] == a.postalCode;
  }

  // ---------------------------------------------------------------------------
  // parseCartItems

  /** A decoded metadata line. */
  datatype CartItemMetadata = CartItemMetadata(id: string, size: string, quantity: real)

  /** One array element coerced as `{ id: String(x?.id ?? ""), size: ..., quantity: Number(x?.quantity ?? 0) }`. */
  function IdOf(x: Json): string { StringOrEmpty(Member(x, "id")) }
  function SizeOf(x: Json): string { StringOrEmpty(Member(x, "size")) }
  function QuantityOf(x: Json): Num { NumberOrZero(Member(x, "quantity")) }

  /** The filter: a non-empty id and size and a finite positive quantity. */
  predicate Keep(x: Json) {
    IdOf(x) != "" && SizeOf(x) != "" && QuantityOf(x).Finite? && QuantityOf(x).value > 0.0
  }

  function MetadataOf(x: Json): CartItemMetadata
    requires Keep(x)
  {
    CartItemMetadata(IdOf(x), SizeOf(x), QuantityOf(x).value)
  }

  /** The map-then-filter over the decoded array, in order. */
  function DecodeElements(elems: seq<Json>): (r: seq<CartItemMetadata>)
    ensures |r| <= |elems|
    ensures forall i :: 0 <= i < |r| ==> r[i].id != "" && r[i].size != "" && r[i].quantity > 0.0
  {
    if elems == [] then []
    else
      var last := elems[|elems| - 1];
      DecodeElements(elems[..|elems| - 1]) + (if Keep(last) then [MetadataOf(last)] else [])
  }

  /** `parseCartItems`: nothing for a missing, unparsable or non-array value; otherwise the kept elements. */
  function ParseCartItems(raw: JsonText): (r: seq<CartItemMetadata>)
    ensures !(raw.Parsed? && raw.value.JArr?) ==> r == []
    ensures raw.Parsed? && raw.value.JArr? ==> |r| <= |raw.value.elems|
    ensures forall i :: 0 <= i < |r| ==> r[i].id != "" && r[i].size != "" && r[i].quantity > 0.0
  {
    match raw
    case Parsed(JArr(elems)) => DecodeElements(elems)
    case _ => []
  }

  lemma {:induction false} DecodeKeepsAll(elems: seq<Json>)
    requires forall i :: 0 <= i < |elems| ==> Keep(elems[i])
    ensures |DecodeElements(elems)| == |elems|
    ensures forall i :: 0 <= i < |elems| ==> DecodeElements(elems)[i] == MetadataOf(elems[i])
  {
    if elems != [] {
      DecodeKeepsAll(elems[..|elems| - 1]);
    }
  }

  lemma {:induction false} DecodeDropsOne(elems: seq<Json>, k: nat)
    requires k < |elems| && !Keep(elems[k])
    ensures |DecodeElements(elems)| < |elems|
  {
    if k < |elems| - 1 {
      DecodeDropsOne(elems[..|elems| - 1], k);
    }
  }

  /** What checkout put in the metadata for one cart line, as the webhook reads it back. */
  function Expected(item: CartItem): CartItemMetadata {
    CartItemMetadata(item.id, item.selectedSize, item.quantity as real)
  }

  /** The compact encoding of a cart line decodes to its id, size and quantity, and is kept
      exactly when those are non-empty and positive. */
  lemma CompactItemDecodes(item: CartItem)
    ensures IdOf(CompactItem(item)) == item.id && SizeOf(CompactItem(item)) == item.selectedSize
    ensures QuantityOf(CompactItem(item)) == Finite(item.quantity as real)
    ensures Keep(CompactItem(item)) <==> item.id != "" && item.selectedSize != "" && item.quantity > 0
  {
    var fields := CompactItem(item).fields;
    assert fields["id"] == JStr(item.id);
    assert fields["size"] == JStr(item.selectedSize);
    assert fields["quantity"] == IntJson(item.quantity);
  }

  /** Checkout's `cartItems` metadata parses back to exactly the cart's (id, size, quantity)
      lines, in order, if and only if every line has a non-empty id and size and a positive quantity. */
  lemma CartItemsRoundTrip(items: seq<CartItem>)
    ensures var decoded := ParseCartItems(Parsed(EncodeCartItems(items)));
            (|decoded| == |items| && forall i :: 0 <= i < |items| ==> decoded[i] == Expected(items[i]))
            <==> (forall i :: 0 <= i < |items| ==> items[i].id != "" && items[i].selectedSize != "" && items[i].quantity > 0)
  {
    var elems := EncodeCartItems(items).elems;
    forall i | 0 <= i < |items|
      ensures Keep(elems[i]) <==> items[i].id != "" && items[i].selectedSize != "" && items[i].quantity > 0
      ensures Keep(elems[i]) ==> MetadataOf(elems[i]) == Expected(items[i])
    {
      CompactItemDecodes(items[i]);
    }
    if forall i :: 0 <= i < |items| ==> items[i].id != "" && items[i].selectedSize != "" && items[i].quantity > 0 {
      DecodeKeepsAll(elems);
    } else {
      var k :| 0 <= k < |items| && !(items[k].id != "" && items[k].selectedSize != "" && items[k].quantity > 0);
      DecodeDropsOne(elems, k);
    }
  }

  // ---------------------------------------------------------------------------
  // the request

  /** The customer details the provider collected; a missing field is "". */
  datatype CustomerDetails = CustomerDetails(name: string, email: string, phone: string, address: Option<Address>)

  /** The completed session as far as the handler reads it; a missing metadata string is "". */
  datatype Session = Session(
    orderId: string,
    deliveryMethod: string,
    cartItems: JsonText,
    details: Option<CustomerDetails>,
    amountTotal: Option<int>)

  datatype Event = Event(eventType: string, session: Session)

  /** The outcome of checking the signature against the body: the event, or the verifier's message. */
  datatype Verification = Verified(event: Event) | Rejected(message: string)

  /** The request: the signature header ("" when missing) and what verification yields. */
  datatype Request = Request(signature: string, verification: Verification)

  datatype Response = BadRequest(body: string) | Acknowledged | AcknowledgedWithError(orderId: string)

  function StatusOf(r: Response): int {
    if r.BadRequest? then 400 else 200
  }

  const CompletedEvent := "checkout.session.completed"

  /** The values the handler takes from the session before touching the database. */
  datatype Captured = Captured(
    orderId: string,
    phone: string,
    address: string,
    customerName: string,
    customerEmail: string,
    deliveryMethod: string,
    cartItems: seq<CartItemMetadata>)

  function Capture(s: Session): (c: Captured)
    ensures c.orderId == s.orderId && c.deliveryMethod != ""
    ensures s.deliveryMethod == "" ==> c.deliveryMethod == "standard"
  {
    var d := s.details;
    Captured(
      s.orderId,
      if d.Some? then d.value.phone else "",
      FormatAddress(if d.Some? then d.value.address else None),
      if d.Some? then d.value.name else "",
      if d.Some? then d.value.email else "",
      if s.deliveryMethod != "" then s.deliveryMethod else "standard",
      ParseCartItems(s.cartItems))
  }

  // ---------------------------------------------------------------------------
  // the order update

  /** The three write attempts, in the order they are tried. */
  datatype UpdateStage = FullFields | WithoutDeliveryMethod | EssentialOnly

  /** The fields an update writes; a field that is not written is `None`. */
  datatype OrderUpdate = OrderUpdate(
    isPaid: bool,
    phone: string,
    address: string,
    customerName: Option<string>,
    customerEmail: Option<string>,
    deliveryMethod: Option<string>)

  const DeliveryMethods: seq<string> := ["standard", "express", "pickup", "us"]

  /** The payload of each attempt. */
  function UpdateFor(stage: UpdateStage, c: Captured): (u: OrderUpdate)
    ensures u.isPaid && u.phone == c.phone && u.address == c.address
    ensures u.customerName.Some? <==> stage != EssentialOnly && c.customerName != ""
    ensures u.customerEmail.Some? <==> stage != EssentialOnly && c.customerEmail != ""
    ensures u.deliveryMethod.Some? <==> stage == FullFields && c.deliveryMethod in DeliveryMethods
    ensures u.customerName.Some? ==> u.customerName.value == c.customerName
    ensures u.customerEmail.Some? ==> u.customerEmail.value == c.customerEmail
    ensures u.deliveryMethod.Some? ==> u.deliveryMethod.value == c.deliveryMethod
  {
    var name := if c.customerName != "" then Some(c.customerName) else None;
    var email := if c.customerEmail != "" then Some(c.customerEmail) else None;
    match stage
    case FullFields =>
      OrderUpdate(true, c.phone, c.address, name, email,
                  if c.deliveryMethod in DeliveryMethods then Some(c.deliveryMethod) else None)
    case WithoutDeliveryMethod => OrderUpdate(true, c.phone, c.address, name, email, None)
    case EssentialOnly => OrderUpdate(true, c.phone, c.address, None, None, None)
  }

  /** The order after a successful update: written fields replaced, the rest kept. */
  function ApplyUpdate(o: Order, u: OrderUpdate): Order {
    o.(isPaid := u.isPaid, phone := u.phone, address := u.address,
       customerName := u.customerName.GetOr(o.customerName),
       customerEmail := u.customerEmail.GetOr(o.customerEmail),
       deliveryMethod := u.deliveryMethod.GetOr(o.deliveryMethod))
  }

  /** The first attempt the database accepts. Every attempt fails on a missing order; otherwise
      an attempt fails when its stage is among the rejected ones. */
  function AcceptedStage(present: bool, rejected: set<UpdateStage>): (r: Option<UpdateStage>)
    ensures r.Some? ==> present && r.value !in rejected
    ensures r.None? <==> !present || (FullFields in rejected && WithoutDeliveryMethod in rejected && EssentialOnly in rejected)
    ensures r == Some(WithoutDeliveryMethod) ==> FullFields in rejected
    ensures r == Some(EssentialOnly) ==> FullFields in rejected && WithoutDeliveryMethod in rejected
  {
    if !present then None
    else if FullFields !in rejected then Some(FullFields)
    else if WithoutDeliveryMethod !in rejected then Some(WithoutDeliveryMethod)
    else if EssentialOnly !in rejected then Some(EssentialOnly)
    else None
  }

  // ---------------------------------------------------------------------------
  // stock

  function RMax(a: real, b: real): real {
    if a >= b then a else b
  }

  /** `Math.max(0, current - ordered)`: the quantity a row should hold after a line is bought. */
  function Remaining(current: int, ordered: real): (r: real)
    ensures r >= 0.0 && r >= current as real - ordered
    ensures r == 0.0 || r == current as real - ordered
  {
    RMax(0.0, current as real - ordered)
  }

  /** Whether a real is a whole number, which the integer quantity column accepts. */
  predicate Integral(x: real) {
    x == x.Floor as real
  }

  /** The key of the size row a metadata line names. */
  function KeyOf(item: CartItemMetadata): SizeKey {
    SizeKey(item.id, item.size)
  }

  /** One line's stock update: a missing row, a failing line, an unchanged quantity, or a
      non-integral result (the integer column rejects it) leave the rows as they are; otherwise
      the row becomes `max(0, current - ordered)`. */
  function DecrementLine(sizes: map<SizeKey, int>, item: CartItemMetadata, fails: bool): (r: map<SizeKey, int>)
    ensures r.Keys == sizes.Keys
    ensures forall k :: k in sizes && k != KeyOf(item) ==> r[k] == sizes[k]
    ensures fails || KeyOf(item) !in sizes ==> r == sizes
    ensures !fails && KeyOf(item) in sizes && Integral(Remaining(sizes[KeyOf(item)], item.quantity)) ==>
              r[KeyOf(item)] as real == Remaining(sizes[KeyOf(item)], item.quantity)
    ensures KeyOf(item) in sizes && !Integral(Remaining(sizes[KeyOf(item)], item.quantity)) ==> r == sizes
    ensures forall k :: k in sizes && r[k] != sizes[k] ==> r[k] >= 0
    ensures item.quantity > 0.0 ==> forall k :: k in sizes && sizes[k] >= 0 ==> r[k] <= sizes[k]
  {
    var key := KeyOf(item);
    if fails || key !in sizes then sizes
    else
      var newQty := Remaining(sizes[key], item.quantity);
      if newQty == sizes[key] as real || !Integral(newQty) then sizes
      else
        assert item.quantity > 0.0 && sizes[key] >= 0 ==> newQty <= sizes[key] as real;
        sizes[key := newQty.Floor]
  }

  /** The first `n` lines processed in order; line `i` fails when `i` is in `failing`. */
  function DecrementPrefix(sizes: map<SizeKey, int>, items: seq<CartItemMetadata>, failing: set<nat>, n: nat): map<SizeKey, int>
    requires n <= |items|
  {
    if n == 0 then sizes
    else DecrementLine(DecrementPrefix(sizes, items, failing, n - 1), items[n - 1], n - 1 in failing)
  }

  function DecrementAll(sizes: map<SizeKey, int>, items: seq<CartItemMetadata>, failing: set<nat>): map<SizeKey, int> {
    DecrementPrefix(sizes, items, failing, |items|)
  }

  /** The stock loop creates and deletes no rows, leaves rows no line names untouched, never
      raises a quantity, and never drives a non-negative quantity below zero. */
  lemma {:induction false} DecrementBounds(sizes: map<SizeKey, int>, items: seq<CartItemMetadata>, failing: set<nat>, n: nat)
    requires n <= |items|
    requires forall i :: 0 <= i < |items| ==> items[i].quantity > 0.0
    ensures var r := DecrementPrefix(sizes, items, failing, n);
            && r.Keys == sizes.Keys
            && (forall k :: k in sizes && sizes[k] >= 0 ==> 0 <= r[k] <= sizes[k])
            && (forall k :: k in sizes && (forall i :: 0 <= i < n ==> SizeKey(items[i].id, items[i].size) != k) ==> r[k] == sizes[k])
  {
    if n > 0 {
      DecrementBounds(sizes, items, failing, n - 1);
      DecrementStep(sizes, DecrementPrefix(sizes, items, failing, n - 1), items, n - 1 in failing, n);
    }
  }

  /** One line of the stock loop keeps the bounds `DecrementBounds` states for the lines before it. */
  lemma DecrementStep(sizes: map<SizeKey, int>, prev: map<SizeKey, int>, items: seq<CartItemMetadata>, fails: bool, n: nat)
    requires 0 < n <= |items| && items[n - 1].quantity > 0.0
    requires prev.Keys == sizes.Keys
    requires forall k :: k in sizes && sizes[k] >= 0 ==> 0 <= prev[k] <= sizes[k]
    requires forall k :: k in sizes && (forall i :: 0 <= i < n - 1 ==> SizeKey(items[i].id, items[i].size) != k) ==> prev[k] == sizes[k]
    ensures var r := DecrementLine(prev, items[n - 1], fails);
            && r.Keys == sizes.Keys
            && (forall k :: k in sizes && sizes[k] >= 0 ==> 0 <= r[k] <= sizes[k])
            && (forall k :: k in sizes && (forall i :: 0 <= i < n ==> SizeKey(items[i].id, items[i].size) != k) ==> r[k] == sizes[k])
  {
    var r := DecrementLine(prev, items[n - 1], fails);
    forall k | k in sizes && (forall i :: 0 <= i < n ==> SizeKey(items[i].id, items[i].size) != k)
      ensures r[k] == sizes[k]
    {
      assert SizeKey(items[n - 1].id, items[n - 1].size) != k;
    }
  }

  /** With distinct row keys, the stock loop sets each named row from its old value alone: to
      `max(0, old - ordered)` when the line's write goes through, and to the old value when the
      line fails or the result is not a whole number. Rows no line names are untouched. */
  lemma {:induction false} DecrementAllRows(sizes: map<SizeKey, int>, items: seq<CartItemMetadata>, failing: set<nat>, n: nat)
    requires n <= |items|
    requires forall i, j :: 0 <= i < j < |items| ==> KeyOf(items[i]) != KeyOf(items[j])
    ensures var r := DecrementPrefix(sizes, items, failing, n);
            && r.Keys == sizes.Keys
            && (forall k :: k in sizes && (forall i :: 0 <= i < n ==> KeyOf(items[i]) != k) ==> r[k] == sizes[k])
            && (forall i :: 0 <= i < n && KeyOf(items[i]) in sizes && i !in failing
                  && Integral(Remaining(sizes[KeyOf(items[i])], items[i].quantity))
                  ==> r[KeyOf(items[i])] as real == Remaining(sizes[KeyOf(items[i])], items[i].quantity))
            && (forall i :: 0 <= i < n && KeyOf(items[i]) in sizes
                  && (i in failing || !Integral(Remaining(sizes[KeyOf(items[i])], items[i].quantity)))
                  ==> r[KeyOf(items[i])] == sizes[KeyOf(items[i])])
  {
    if n > 0 {
      DecrementAllRows(sizes, items, failing, n - 1);
      var item := items[n - 1];
      assert forall i :: 0 <= i < n - 1 ==> KeyOf(items[i]) != KeyOf(item);
    }
  }

  /** When no line fails and every ordered quantity is whole, each row a line names ends at
      `max(0, old - ordered)`. */
  lemma DecrementAllLowersStock(sizes: map<SizeKey, int>, items: seq<CartItemMetadata>, i: nat)
    requires forall a, b :: 0 <= a < b < |items| ==> KeyOf(items[a]) != KeyOf(items[b])
    requires i < |items| && KeyOf(items[i]) in sizes && Integral(items[i].quantity)
    ensures DecrementAll(sizes, items, {}).Keys == sizes.Keys
    ensures DecrementAll(sizes, items, {})[KeyOf(items[i])] as real == Remaining(sizes[KeyOf(items[i])], items[i].quantity)
  {
    WholeRemaining(sizes[KeyOf(items[i])], items[i].quantity);
    DecrementAllRows(sizes, items, {}, |items|);
    assert i !in {};
  }

  /** A whole quantity taken from a whole stock leaves a whole stock. */
  lemma WholeRemaining(current: int, q: real)
    requires Integral(q)
    ensures Integral(Remaining(current, q))
  {
    assert current as real - q == (current - q.Floor) as real;
  }

  /** Failing lines do not stop the others: while every line before `n` fails or names no row,
      the rows are untouched, and line `n` is then applied to the original rows exactly as if it
      were alone. */
  lemma {:induction false} FailedLinesSkipped(sizes: map<SizeKey, int>, items: seq<CartItemMetadata>, failing: set<nat>, n: nat)
    requires n < |items|
    requires forall i :: 0 <= i < n ==> i in failing || KeyOf(items[i]) !in sizes
    ensures DecrementPrefix(sizes, items, failing, n) == sizes
    ensures DecrementPrefix(sizes, items, failing, n + 1) == DecrementLine(sizes, items[n], n in failing)
  {
    if n > 0 {
      FailedLinesSkipped(sizes, items, failing, n - 1);
      assert n - 1 in failing || KeyOf(items[n - 1]) !in sizes;
    }
  }

  // ---------------------------------------------------------------------------
  // the handler

  /** The handler's effect: the new order and size maps, the response, and whether the
      confirmation e-mail is dispatched. */
  datatype Outcome = Outcome(orders: map<string, Order>, sizes: map<SizeKey, int>, response: Response, emailAttempted: bool)

  /** What the database does wrong on this request: the paid-status lookup throws, some update
      attempts are rejected, and the stock write of some lines fails. */
  datatype Faults = Faults(lookupFails: bool, rejected: set<UpdateStage>, failingLines: set<nat>)

  /** Processing of a completed session with an order id. */
  function Fulfil(orders: map<string, Order>, sizes: map<SizeKey, int>, c: Captured, faults: Faults, mailerConfigured: bool): Outcome {
    var email := c.customerEmail != "" && mailerConfigured;
    if faults.lookupFails then Outcome(orders, sizes, AcknowledgedWithError(c.orderId), false)
    else if c.orderId in orders && orders[c.orderId].isPaid then Outcome(orders, sizes, Acknowledged, email)
    else
      match AcceptedStage(c.orderId in orders, faults.rejected)
      case None => Outcome(orders, sizes, AcknowledgedWithError(c.orderId), false)
      case Some(stage) =>
        Outcome(orders[c.orderId := ApplyUpdate(orders[c.orderId], UpdateFor(stage, c))],
                DecrementAll(sizes, c.cartItems, faults.failingLines),
                Acknowledged, email)
  }

  /** The `POST` handler on the order and size maps. */
  function Handle(orders: map<string, Order>, sizes: map<SizeKey, int>, req: Request, faults: Faults, mailerConfigured: bool): Outcome {
    if req.signature == "" then Outcome(orders, sizes, BadRequest("Missing stripe-signature header"), false)
    else
      match req.verification
      case Rejected(message) => Outcome(orders, sizes, BadRequest("Webhook Error: " + message), false)
      case Verified(event) =>
        if event.eventType != CompletedEvent || event.session.orderId == "" then Outcome(orders, sizes, Acknowledged, false)
        else Fulfil(orders, sizes, Capture(event.session), faults, mailerConfigured)
  }

  /** One update attempt: it writes the payload when the order exists and the stage is accepted. */
  method TryUpdate(db: Database, orderId: string, data: OrderUpdate, stage: UpdateStage, rejected: set<UpdateStage>)
    returns (ok: bool)
    modifies db
    ensures ok == (orderId in old(db.orders) && stage !in rejected)
    ensures ok ==> db.orders == old(db.orders)[orderId := ApplyUpdate(old(db.orders)[orderId], data)]
    ensures !ok ==> db.orders == old(db.orders)
    ensures db.sizes == old(db.sizes) && db.products == old(db.products)
    ensures db.categories == old(db.categories) && db.preorders == old(db.preorders)
  {
    ok := orderId in db.orders && stage !in rejected;
    if ok {
      db.orders := db.orders[orderId := ApplyUpdate(db.orders[orderId], data)];
    }
  }

  /** The order update with its two fallbacks; `ok` is false when the last one throws too. */
  method MarkPaid(db: Database, c: Captured, rejected: set<UpdateStage>) returns (ok: bool)
    modifies db
    ensures ok == AcceptedStage(c.orderId in old(db.orders), rejected).Some?
    ensures ok ==> db.orders == old(db.orders)[c.orderId := ApplyUpdate(old(db.orders)[c.orderId],
                                 UpdateFor(AcceptedStage(c.orderId in old(db.orders), rejected).value, c))]
    ensures !ok ==> db.orders == old(db.orders)
    ensures db.sizes == old(db.sizes) && db.products == old(db.products)
    ensures db.categories == old(db.categories) && db.preorders == old(db.preorders)
  {
    var updateData := OrderUpdate(true, c.phone, c.address, None, None, None);
    if c.customerName != "" {
      updateData := updateData.(customerName := Some(c.customerName));
    }
    if c.customerEmail != "" {
      updateData := updateData.(customerEmail := Some(c.customerEmail));
    }
    if c.deliveryMethod != "" && c.deliveryMethod in DeliveryMethods {
      updateData := updateData.(deliveryMethod := Some(c.deliveryMethod));
    }
    assert updateData == UpdateFor(FullFields, c);
    ok := TryUpdate(db, c.orderId, updateData, FullFields, rejected);
    if !ok {
      var fallbackData := OrderUpdate(true, c.phone, c.address, None, None, None);
      if c.customerName != "" {
        fallbackData := fallbackData.(customerName := Some(c.customerName));
      }
      if c.customerEmail != "" {
        fallbackData := fallbackData.(customerEmail := Some(c.customerEmail));
      }
      assert fallbackData == UpdateFor(WithoutDeliveryMethod, c);
      ok := TryUpdate(db, c.orderId, fallbackData, WithoutDeliveryMethod, rejected);
      if !ok {
        ok := TryUpdate(db, c.orderId, OrderUpdate(true, c.phone, c.address, None, None, None), EssentialOnly, rejected);
      }
    }
  }

  /** One pass of the stock loop: the row write for one line, skipped when the line fails. */
  method DecrementOne(sizes: map<SizeKey, int>, item: CartItemMetadata, fails: bool) returns (r: map<SizeKey, int>)
    ensures r == DecrementLine(sizes, item, fails)
  {
    r := sizes;
    var key := SizeKey(item.id, item.size);
    if !fails && key in sizes {
      var current := sizes[key];
      var newQty := RMax(0.0, current as real - item.quantity);
      if newQty != current as real && newQty == newQty.Floor as real {
        r := sizes[key := newQty.Floor];
      }
    }
  }

  /** The stock loop over the line items, in order. */
  method DecrementRows(start: map<SizeKey, int>, items: seq<CartItemMetadata>, failing: set<nat>)
    returns (sizes: map<SizeKey, int>)
    ensures sizes == DecrementAll(start, items, failing)
  {
    sizes := start;
    var i := 0;
    while i < |items|
      invariant 0 <= i <= |items|
      invariant sizes == DecrementPrefix(start, items, failing, i)
    {
      sizes := DecrementOne(sizes, items[i], i in failing);
      i := i + 1;
    }
  }

  method DecrementStock(db: Database, items: seq<CartItemMetadata>, failing: set<nat>)
    modifies db
    ensures db.sizes == DecrementAll(old(db.sizes), items, failing)
    ensures db.orders == old(db.orders) && db.products == old(db.products)
    ensures db.categories == old(db.categories) && db.preorders == old(db.preorders)
  {
    var sizes := DecrementRows(db.sizes, items, failing);
    db.sizes := sizes;
  }



  /** `POST`. */
  method Post(db: Database, req: Request, faults: Faults, mailerConfigured: bool)
    returns (response: Response, emailAttempted: bool)
    modifies db
    ensures Outcome(db.orders, db.sizes, response, emailAttempted)
            == Handle(old(db.orders), old(db.sizes), req, faults, mailerConfigured)
    ensures db.products == old(db.products) && db.categories == old(db.categories) && db.preorders == old(db.preorders)
  {
    if req.signature == "" {
      return BadRequest("Missing stripe-signature header"), false;
    }
    if req.verification.Rejected? {
      return BadRequest("Webhook Error: " + req.verification.message), false;
    }
    var event := req.verification.event;
    if event.eventType == CompletedEvent && event.session.orderId != "" {
      var c := Capture(event.session);
      if faults.lookupFails {
        return AcknowledgedWithError(c.orderId), false;
      }
      var alreadyPaid := c.orderId in db.orders && db.orders[c.orderId].isPaid;
      if !alreadyPaid {
        var ok := MarkPaid(db, c, faults.rejected);
        if !ok {
          return AcknowledgedWithError(c.orderId), false;
        }
        DecrementStock(db, c.cartItems, faults.failingLines);
      }
      emailAttempted := c.customerEmail != "" && mailerConfigured;
      return Acknowledged, emailAttempted;
    }
    return Acknowledged, false;
  }

  // ---------------------------------------------------------------------------
  // properties of the handler

  /** A missing or failing signature answers 400 and changes nothing. */
  lemma SignatureGate(orders: map<string, Order>, sizes: map<SizeKey, int>, req: Request, faults: Faults, mailerConfigured: bool)
    requires req.signature == "" || req.verification.Rejected?
    ensures var out := Handle(orders, sizes, req, faults, mailerConfigured);
            StatusOf(out.response) == 400 && out.orders == orders && out.sizes == sizes && !out.emailAttempted
  {
  }

  /** A verified request is always answered 200, even when processing fails. */
  lemma VerifiedIsAcknowledged(orders: map<string, Order>, sizes: map<SizeKey, int>, req: Request, faults: Faults, mailerConfigured: bool)
    requires req.signature != "" && req.verification.Verified?
    ensures StatusOf(Handle(orders, sizes, req, faults, mailerConfigured).response) == 200
  {
  }

  /** Any other verified event, or a completed session without an order id, is acknowledged and
      changes nothing. */
  lemma OtherEventsIgnored(orders: map<string, Order>, sizes: map<SizeKey, int>, req: Request, faults: Faults, mailerConfigured: bool)
    requires req.signature != "" && req.verification.Verified?
    requires req.verification.event.eventType != CompletedEvent || req.verification.event.session.orderId == ""
    ensures Handle(orders, sizes, req, faults, mailerConfigured) == Outcome(orders, sizes, Acknowledged, false)
  {
  }

  /** A verified completed session whose order is already paid writes no order and no size row;
      the e-mail is still dispatched whenever there is a recipient and a mailer. */
  lemma AlreadyPaidWritesNothing(orders: map<string, Order>, sizes: map<SizeKey, int>, req: Request, faults: Faults, mailerConfigured: bool)
    requires req.signature != "" && req.verification.Verified?
    requires var s := req.verification.event.session;
             req.verification.event.eventType == CompletedEvent && s.orderId != ""
             && s.orderId in orders && orders[s.orderId].isPaid
    ensures var out := Handle(orders, sizes, req, faults, mailerConfigured);
            && out.orders == orders && out.sizes == sizes
            && (!faults.lookupFails ==>
                  out.response == Acknowledged
                  && out.emailAttempted == (Capture(req.verification.event.session).customerEmail != "" && mailerConfigured))
  {
  }

  /** When the lookup or every update attempt fails (a missing order makes them all fail), the
      request is still acknowledged with status 200, and nothing is written or sent. */
  lemma ProcessingFailureAcknowledged(orders: map<string, Order>, sizes: map<SizeKey, int>, req: Request, faults: Faults, mailerConfigured: bool)
    requires req.signature != "" && req.verification.Verified?
    requires var s := req.verification.event.session;
             req.verification.event.eventType == CompletedEvent && s.orderId != ""
             && !(s.orderId in orders && orders[s.orderId].isPaid)
             && (faults.lookupFails || AcceptedStage(s.orderId in orders, faults.rejected).None?)
    ensures Handle(orders, sizes, req, faults, mailerConfigured)
            == Outcome(orders, sizes, AcknowledgedWithError(req.verification.event.session.orderId), false)
  {
  }

  /** A successful first delivery marks exactly that order paid with the captured phone and
      address, leaves every other order as it was, and applies the stock loop once. */
  lemma FirstDeliveryMarksPaid(orders: map<string, Order>, sizes: map<SizeKey, int>, req: Request, faults: Faults, mailerConfigured: bool)
    requires req.signature != "" && req.verification.Verified?
    requires var s := req.verification.event.session;
             req.verification.event.eventType == CompletedEvent && s.orderId != ""
             && s.orderId in orders && !orders[s.orderId].isPaid
             && !faults.lookupFails && AcceptedStage(true, faults.rejected).Some?
    ensures var s := req.verification.event.session;
            var c := Capture(s);
            var out := Handle(orders, sizes, req, faults, mailerConfigured);
            && out.response == Acknowledged
            && s.orderId in out.orders && out.orders[s.orderId].isPaid
            && out.orders[s.orderId].phone == c.phone && out.orders[s.orderId].address == c.address
            && out.orders.Keys == orders.Keys
            && (forall id :: id in orders && id != s.orderId ==> out.orders[id] == orders[id])
            && out.sizes == DecrementAll(sizes, c.cartItems, faults.failingLines)
  {
  }

  /** Idempotency: once a delivery has left the order paid, delivering the same event again —
      with any faults — changes no order and no size row. */
  lemma RedeliveryChangesNothing(orders: map<string, Order>, sizes: map<SizeKey, int>, req: Request,
                                 first: Faults, second: Faults, mailerConfigured: bool)
    requires req.signature != "" && req.verification.Verified?
    requires var s := req.verification.event.session;
             req.verification.event.eventType == CompletedEvent && s.orderId != "" && s.orderId in orders
             && !first.lookupFails && AcceptedStage(true, first.rejected).Some?
    ensures var once := Handle(orders, sizes, req, first, mailerConfigured);
            var twice := Handle(once.orders, once.sizes, req, second, mailerConfigured);
            twice.orders == once.orders && twice.sizes == once.sizes
  {
    var s := req.verification.event.session;
    var once := Handle(orders, sizes, req, first, mailerConfigured);
    if !orders[s.orderId].isPaid {
      FirstDeliveryMarksPaid(orders, sizes, req, first, mailerConfigured);
    }
    AlreadyPaidWritesNothing(once.orders, once.sizes, req, second, mailerConfigured);
  }

  /** The whole handler keeps size quantities non-negative and never adds or removes a row. */
  lemma StockStaysNonNegative(orders: map<string, Order>, sizes: map<SizeKey, int>, req: Request, faults: Faults, mailerConfigured: bool)
    requires forall k :: k in sizes ==> sizes[k] >= 0
    ensures var out := Handle(orders, sizes, req, faults, mailerConfigured);
            out.sizes.Keys == sizes.Keys && forall k :: k in out.sizes ==> 0 <= out.sizes[k] <= sizes[k]
  {
    if req.signature != "" && req.verification.Verified? {
      var event := req.verification.event;
      if event.eventType == CompletedEvent && event.session.orderId != "" {
        var c := Capture(event.session);
        FulfilSizes(orders, sizes, c, faults, mailerConfigured);
        DecrementBounds(sizes, c.cartItems, faults.failingLines, |c.cartItems|);
      }
    }
  }

  /** Fulfilment leaves the size rows alone or runs the stock loop over the captured lines. */
  lemma FulfilSizes(orders: map<string, Order>, sizes: map<SizeKey, int>, c: Captured, faults: Faults, mailerConfigured: bool)
    ensures var out := Fulfil(orders, sizes, c, faults, mailerConfigured);
            out.sizes == sizes || out.sizes == DecrementAll(sizes, c.cartItems, faults.failingLines)
  {
  }

  /** Two pairs of sneakers of size "US 10" bought from a row holding 5 leave 3. */
  lemma StockExample()
    ensures var items := [CartItemMetadata("P1", "US 10", 2.0)];
            var sizes := map[SizeKey("P1", "US 10") := 5];
            DecrementAll(sizes, items, {}) == map[SizeKey("P1", "US 10") := 3]
  {
    var items := [CartItemMetadata("P1", "US 10", 2.0)];
    var sizes := map[SizeKey("P1", "US 10") := 5];
    assert DecrementPrefix(sizes, items, {}, 0) == sizes;
    assert RMax(0.0, 5.0 - 2.0) == 3.0;
    assert (3.0).Floor == 3;
  }

  // ---------------------------------------------------------------------------
  // the confirmation e-mail

  function ReceiptProductOf(line: OrderLine): ReceiptProduct {
    ReceiptProduct(
      line.product.name,
      if |line.product.images| > 0 then line.product.images[0] else "",
      if line.item.size != "" then line.item.size else "One Size",
      line.item.quantity,
      line.product.price)
  }

  /** The receipt props built from the re-fetched order and its lines (totals in cents). */
  function ReceiptFor(orderId: string, order: Order, lines: seq<OrderLine>, c: Captured, amountTotal: Option<int>): (p: Props)
    ensures p.subtotal == Some(Sum(lines, LineAmount)) && p.total == amountTotal.GetOr(0)
    ensures |p.products| == |lines|
    ensures forall i :: 0 <= i < |lines| ==> p.products[i] == ReceiptProductOf(lines[i])
    ensures p.shipping.Some? <==> p.total > Sum(lines, LineAmount)
    ensures p.shipping.Some? ==> p.shipping.value == p.total - Sum(lines, LineAmount)
  {
    var subtotal := Sum(lines, LineAmount);
    var total := amountTotal.GetOr(0);
    var shippingCost := total - subtotal;
    Props(
      orderId,
      if order.customerName != "" then Some(order.customerName) else if c.customerName != "" then Some(c.customerName) else None,
      if order.customerEmail != "" then Some(order.customerEmail) else if c.customerEmail != "" then Some(c.customerEmail) else None,
      seq(|lines|, i requires 0 <= i < |lines| => ReceiptProductOf(lines[i])),
      if c.address != "" then c.address else "Address not provided",
      total,
      Some(subtotal),
      if shippingCost > 0 then Some(shippingCost) else None)
  }

  /** The confirmation e-mail's subject: a fixed 18-character prefix, then the short order id,
      which `ShortOrderId` states is the id's last six characters upper-cased. */
  function EmailSubject(orderId: string): (r: string)
    ensures |r| == 18 + (if |orderId| < 6 then |orderId| else 6)
    ensures r[..18] == "Order Confirmed: #"
    ensures r[18..] == ShortOrderId(orderId)
  {
    var prefix := "Order Confirmed: #";
    assert |prefix| == 18;
    var r := prefix + ShortOrderId(orderId);
    assert r[..18] == prefix;
    assert r[18..] == ShortOrderId(orderId);
    r
  }

  /** The e-mail's subtotal row is the sum of its line amounts, and its shipping row appears
      exactly when the charged total exceeds that subtotal, showing the difference. */
  lemma ReceiptTotalsAgree(orderId: string, order: Order, lines: seq<OrderLine>, c: Captured, amountTotal: Option<int>)
    ensures var r := Render(ReceiptFor(orderId, order, lines, c, amountTotal));
            && r.subtotalRow == Sum(r.lineAmounts, (a: int) => a)
            && (r.shippingRow.Some? <==> r.totalRow > r.subtotalRow)
            && (r.shippingRow.Some? ==> r.subtotalRow + r.shippingRow.value == r.totalRow)
  {
    var p := ReceiptFor(orderId, order, lines, c, amountTotal);
    ReceiptLinesSum(lines, p);
    ReceiptShipping(p, Sum(lines, LineAmount));
  }

  /** The rendered line amounts add up to the order lines' amounts. */
  lemma ReceiptLinesSum(lines: seq<OrderLine>, p: Props)
    requires |p.products| == |lines|
    requires forall i :: 0 <= i < |lines| ==> p.products[i] == ReceiptProductOf(lines[i])
    ensures Sum(Render(p).lineAmounts, (a: int) => a) == Sum(lines, LineAmount)
  {
    var r := Render(p);
    SumPointwise(lines, LineAmount, r.lineAmounts, (a: int) => a);
  }

  /** With the subtotal given and the shipping prop set exactly when the total exceeds it, the
      rendered shipping row is that excess. */
  lemma ReceiptShipping(p: Props, subtotal: int)
    requires p.subtotal == Some(subtotal)
    requires p.shipping.Some? <==> p.total > subtotal
    requires p.shipping.Some? ==> p.shipping.value == p.total - subtotal
    ensures var r := Render(p);
            && r.subtotalRow == subtotal
            && (r.shippingRow.Some? <==> r.totalRow > r.subtotalRow)
            && (r.shippingRow.Some? ==> r.subtotalRow + r.shippingRow.value == r.totalRow)
  {
  }
}
