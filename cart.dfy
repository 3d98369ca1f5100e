/**
  The client cart store: a list of cart lines and the chosen delivery method. Each action
  replaces `items` (or `deliveryMethod`) with a new value computed from the old one.
  A line is identified by the pair (product id, selected size).
 */
module Cart {
  import opened Wrappers
  import opened Ints
  import opened Json
  import opened Store

  datatype DeliveryMethod = Standard | Express | Pickup | Us

  function MethodName(m: DeliveryMethod): string {
    match m
    case Standard => "standard"
    case Express => "express"
    case Pickup => "pickup"
    case Us => "us"
  }

  /** A cart line: the product, the chosen size, the quantity and the optional stock cap. */
  datatype CartItem = CartItem(
    id: string,
    product: Product,
    selectedSize: string,
    quantity: int,
    maxAvailable: Option<int>)

  predicate IsLine(item: CartItem, id: string, size: string) {
    item.id == id && item.selectedSize == size
  }

  /** At most one line per (id, size). */
  predicate UniqueLines(items: seq<CartItem>) {
    forall i, j :: 0 <= i < j < |items| ==> !IsLine(items[j], items[i].id, items[i].selectedSize)
  }

  /** A capped line has a non-negative cap and does not exceed it. */
  predicate WithinCaps(items: seq<CartItem>) {
    forall i :: 0 <= i < |items| && items[i].maxAvailable.Some? ==>
      0 <= items[i].maxAvailable.value && items[i].quantity <= items[i].maxAvailable.value
  }

  predicate ValidLines(items: seq<CartItem>) {
    UniqueLines(items) && WithinCaps(items)
  }

  // ---------------------------------------------------------------------------
  // specification of the actions

  /** `addItem`'s quantity: `Number.isFinite(q) ? Math.max(1, Math.floor(q)) : 1`. */
  function AddQuantity(q: Num): (r: int)
    ensures r >= 1
    ensures q.Finite? && q.value >= 1.0 ==> r as real <= q.value < r as real + 1.0
    ensures q.NonFinite? || q.value < 2.0 ==> r == 1
  {
    if q.Finite? then Max(1, q.value.Floor) else 1
  }

  /** `setQuantity`'s quantity: `Number.isFinite(q) ? Math.max(0, Math.floor(q)) : 0`. */
  function SetQuantityValue(q: Num): (r: int)
    ensures r >= 0
    ensures q.Finite? && q.value >= 0.0 ==> r as real <= q.value < r as real + 1.0
    ensures q.NonFinite? || q.value < 1.0 ==> r == 0
  {
    if q.Finite? then Max(0, q.value.Floor) else 0
  }

  /** The cap a `maxAvailable` argument sets: `Math.max(0, Math.floor(m))`. */
  function CapOf(m: real): (r: int)
    ensures r >= 0
    ensures m >= 0.0 ==> r as real <= m < r as real + 1.0
    ensures m < 1.0 ==> r == 0
  {
    Max(0, m.Floor)
  }

  /** `Math.min(q, cap)` when there is a cap, `q` otherwise. */
  function Capped(q: int, cap: Option<int>): (r: int)
    ensures r <= q
    ensures cap.Some? ==> r <= cap.value
    ensures r == q || (cap.Some? && r == cap.value)
  {
    if cap.Some? then Min(q, cap.value) else q
  }

  /** `items.find(...)`: the index of the first line for (id, size). */
  function FindLine(items: seq<CartItem>, id: string, size: string): (r: Option<nat>)
    ensures r.Some? ==> r.value < |items| && IsLine(items[r.value], id, size)
    ensures r.Some? ==> forall j :: 0 <= j < r.value ==> !IsLine(items[j], id, size)
    ensures r.None? ==> forall j :: 0 <= j < |items| ==> !IsLine(items[j], id, size)
  {
    if items == [] then None
    else if IsLine(items[0], id, size) then Some(0)
    else match FindLine(items[1..], id, size)
      case None => None
      case Some(k) => Some(k + 1)
  }

  /** `items.filter(item => !(item.id === id && item.selectedSize === size))`. */
  function Without(items: seq<CartItem>, id: string, size: string): (r: seq<CartItem>)
    ensures |r| <= |items|
    ensures forall j :: 0 <= j < |r| ==> !IsLine(r[j], id, size)
    ensures forall x :: x in r ==> x in items
    ensures forall x :: x in items && !IsLine(x, id, size) ==> x in r
  {
    if items == [] then []
    else
      var init := Without(items[..|items| - 1], id, size);
      var last := items[|items| - 1];
      assert items == items[..|items| - 1] + [last];
      if IsLine(last, id, size) then init else init + [last]
  }

  /** One matching line after an update: the new quantity, and the new cap if there is one. */
  function Relabel(item: CartItem, quantity: int, cap: Option<int>): CartItem {
    item.(quantity := quantity, maxAvailable := if cap.Some? then cap else item.maxAvailable)
  }

  /** `items.map(item => matches ? {...item, quantity, maxAvailable: cap ?? item.maxAvailable} : item)`. */
  function UpdateLines(items: seq<CartItem>, id: string, size: string, quantity: int, cap: Option<int>): (r: seq<CartItem>)
    ensures |r| == |items|
    ensures forall j :: 0 <= j < |items| ==>
              r[j] == if IsLine(items[j], id, size) then Relabel(items[j], quantity, cap) else items[j]
  {
    if items == [] then []
    else
      var last := items[|items| - 1];
      UpdateLines(items[..|items| - 1], id, size, quantity, cap)
        + [if IsLine(last, id, size) then Relabel(last, quantity, cap) else last]
  }

  /** `addItem(product, size, quantity, maxAvailable)`. */
  function AddItemSpec(items: seq<CartItem>, id: string, product: Product, size: string,
                       quantity: Num, maxAvailable: Option<real>): seq<CartItem>
  {
    var qty := AddQuantity(quantity);
    match FindLine(items, id, size)
    case Some(i) =>
      var cap := if maxAvailable.Some? then Some(CapOf(maxAvailable.value)) else items[i].maxAvailable;
      UpdateLines(items, id, size, Capped(items[i].quantity + qty, cap), cap)
    case None =>
      var cap := if maxAvailable.Some? then Some(CapOf(maxAvailable.value)) else None;
      items + [CartItem(id, product, size, Capped(qty, cap), cap)]
  }

  /** `setQuantity(productId, size, quantity)`. */
  function SetQuantitySpec(items: seq<CartItem>, id: string, size: string, quantity: Num): (r: seq<CartItem>)
    // a quantity that floors to 0 or less, or is not finite, makes it `removeItem`
    ensures quantity.NonFinite? || quantity.value < 1.0 ==> r == Without(items, id, size)
  {
    var qty := SetQuantityValue(quantity);
    if qty <= 0 then Without(items, id, size)
    else
      var cap := match FindLine(items, id, size) case Some(i) => items[i].maxAvailable case None => None;
      UpdateLines(items, id, size, Capped(qty, cap), None)
  }

  // ---------------------------------------------------------------------------
  // properties of the actions

  lemma {:induction false} WithoutAppend(a: seq<CartItem>, b: seq<CartItem>, id: string, size: string)
    ensures Without(a + b, id, size) == Without(a, id, size) + Without(b, id, size)
    decreases |b|
  {
    if b == [] {
      assert a + b == a;
    } else {
      var init := b[..|b| - 1];
      assert (a + b)[..|a + b| - 1] == a + init;
      assert (a + b)[|a + b| - 1] == b[|b| - 1];
      WithoutAppend(a, init, id, size);
    }
  }

  /** Removing a key no line has leaves the list as it is. */
  lemma {:induction false} WithoutAbsent(items: seq<CartItem>, id: string, size: string)
    requires forall j :: 0 <= j < |items| ==> !IsLine(items[j], id, size)
    ensures Without(items, id, size) == items
  {
    if items != [] {
      WithoutAbsent(items[..|items| - 1], id, size);
      assert items == items[..|items| - 1] + [items[|items| - 1]];
    }
  }

  /** Every sub-sequence-preserving filter keeps the lines valid. */
  lemma {:induction false} WithoutPreservesValid(items: seq<CartItem>, id: string, size: string)
    requires ValidLines(items)
    ensures ValidLines(Without(items, id, size))
  {
    if items != [] {
      var init := items[..|items| - 1];
      var last := items[|items| - 1];
      assert items == init + [last];
      assert ValidLines(init);
      WithoutPreservesValid(init, id, size);
      var r := Without(init, id, size);
      if !IsLine(last, id, size) {
        forall x | x in r
          ensures !IsLine(last, x.id, x.selectedSize)
        {
          var i :| 0 <= i < |init| && init[i] == x;
          assert items[i] == x;
        }
        AppendKeepsValid(r, last);
      }
    }
  }

  /** Appending a line with a new key and within its cap keeps the lines valid. */
  lemma AppendKeepsValid(r: seq<CartItem>, last: CartItem)
    requires ValidLines(r)
    requires forall x :: x in r ==> !IsLine(last, x.id, x.selectedSize)
    requires last.maxAvailable.Some? ==> 0 <= last.maxAvailable.value && last.quantity <= last.maxAvailable.value
    ensures ValidLines(r + [last])
  {
    var s := r + [last];
    forall i, j | 0 <= i < j < |s|
      ensures !IsLine(s[j], s[i].id, s[i].selectedSize)
    {
      if j == |r| {
        assert s[i] in r;
      }
    }
  }

  /** Removing from `pre + [line] + post`, where only `line` matches, leaves `pre + post`. */
  lemma WithoutSingleMatch(pre: seq<CartItem>, line: CartItem, post: seq<CartItem>, id: string, size: string)
    requires IsLine(line, id, size)
    requires forall j :: 0 <= j < |pre| ==> !IsLine(pre[j], id, size)
    requires forall j :: 0 <= j < |post| ==> !IsLine(post[j], id, size)
    ensures Without(pre + [line] + post, id, size) == pre + post
  {
    WithoutAbsent(pre, id, size);
    WithoutAbsent(post, id, size);
    WithoutAppend(pre + [line], post, id, size);
    WithoutAppend(pre, [line], id, size);
    assert Without([line], id, size) == [] by {
      assert [line][..0] == [];
    }
  }

  /** `removeItem` drops exactly the (id, size) line and keeps every other line, in order. */
  lemma RemoveKeepsOthers(items: seq<CartItem>, id: string, size: string)
    requires UniqueLines(items)
    ensures FindLine(items, id, size).None? ==> Without(items, id, size) == items
    ensures FindLine(items, id, size).Some? ==>
              var i := FindLine(items, id, size).value;
              Without(items, id, size) == items[..i] + items[i + 1..]
  {
    match FindLine(items, id, size)
    case None => WithoutAbsent(items, id, size);
    case Some(i) =>
      var pre, line, post := items[..i], items[i], items[i + 1..];
      forall j | 0 <= j < |post|
        ensures !IsLine(post[j], id, size)
      {
        assert post[j] == items[i + 1 + j];
        assert !IsLine(items[i + 1 + j], line.id, line.selectedSize);
      }
      assert items == pre + [line] + post;
      WithoutSingleMatch(pre, line, post, id, size);
  }

  /** `addItem` keeps at most one line per (id, size) and every capped line within its cap. */
  lemma AddItemPreservesValid(items: seq<CartItem>, id: string, product: Product, size: string,
                              quantity: Num, maxAvailable: Option<real>)
    requires ValidLines(items)
    ensures ValidLines(AddItemSpec(items, id, product, size, quantity, maxAvailable))
  {
    var r := AddItemSpec(items, id, product, size, quantity, maxAvailable);
    match FindLine(items, id, size)
    case Some(i) =>
      forall j | 0 <= j < |items| && j != i
        ensures !IsLine(items[j], id, size)
      {
        if j > i {
          assert !IsLine(items[j], items[i].id, items[i].selectedSize);
        }
      }
    case None =>
  }

  /** `addItem` on a line that exists raises its quantity by the normalised amount, up to the cap
      (the new `maxAvailable` if given, otherwise the line's own), and changes no other line. */
  lemma AddItemExistingLine(items: seq<CartItem>, id: string, product: Product, size: string,
                            quantity: Num, maxAvailable: Option<real>)
    requires UniqueLines(items)
    requires FindLine(items, id, size).Some?
    ensures var i := FindLine(items, id, size).value;
            var r := AddItemSpec(items, id, product, size, quantity, maxAvailable);
            var cap := if maxAvailable.Some? then Some(CapOf(maxAvailable.value)) else items[i].maxAvailable;
            && |r| == |items|
            && r[i].quantity == Capped(items[i].quantity + AddQuantity(quantity), cap)
            && r[i].maxAvailable == cap
            && r[i].product == items[i].product
            && (forall j :: 0 <= j < |items| && j != i ==> r[j] == items[j])
  {
    var i := FindLine(items, id, size).value;
    forall j | 0 <= j < |items| && j != i
      ensures !IsLine(items[j], id, size)
    {
      if j > i {
        assert !IsLine(items[j], items[i].id, items[i].selectedSize);
      }
    }
  }

  /** `addItem` of a new (id, size) appends one line at the end, holding `min(qty, cap)` units
      and the cap when one is given, and the normalised quantity with no cap otherwise. */
  lemma AddItemNewLine(items: seq<CartItem>, id: string, product: Product, size: string,
                       quantity: Num, maxAvailable: Option<real>)
    requires FindLine(items, id, size).None?
    ensures var r := AddItemSpec(items, id, product, size, quantity, maxAvailable);
            && |r| == |items| + 1 && r[..|items|] == items
            && IsLine(r[|items|], id, size) && r[|items|].product == product
            && 0 <= r[|items|].quantity <= AddQuantity(quantity)
            && (maxAvailable.None? ==> r[|items|].quantity == AddQuantity(quantity) && r[|items|].maxAvailable.None?)
            && (maxAvailable.Some? && maxAvailable.value < 1.0 ==> r[|items|].quantity == 0)
            && (maxAvailable.Some? ==> r[|items|].quantity == Min(AddQuantity(quantity), CapOf(maxAvailable.value))
                                       && r[|items|].maxAvailable == Some(CapOf(maxAvailable.value)))
  {
    var r := AddItemSpec(items, id, product, size, quantity, maxAvailable);
    assert r[..|items|] == items;
  }

  /** Adding a new line and removing it again gives back the original lines. */
  lemma AddThenRemove(items: seq<CartItem>, id: string, product: Product, size: string,
                      quantity: Num, maxAvailable: Option<real>)
    requires FindLine(items, id, size).None?
    ensures Without(AddItemSpec(items, id, product, size, quantity, maxAvailable), id, size) == items
  {
    var r := AddItemSpec(items, id, product, size, quantity, maxAvailable);
    assert r == items + [r[|items|]];
    WithoutAppend(items, [r[|items|]], id, size);
    WithoutAbsent(items, id, size);
    assert Without([r[|items|]], id, size) == [] by {
      assert [r[|items|]][..0] == [];
    }
  }

  /** `setQuantity` keeps at most one line per (id, size) and every capped line within its cap. */
  lemma SetQuantityPreservesValid(items: seq<CartItem>, id: string, size: string, quantity: Num)
    requires ValidLines(items)
    ensures ValidLines(SetQuantitySpec(items, id, size, quantity))
  {
    if SetQuantityValue(quantity) <= 0 {
      WithoutPreservesValid(items, id, size);
    } else {
      match FindLine(items, id, size)
      case Some(i) =>
        forall j | 0 <= j < |items| && j != i
          ensures !IsLine(items[j], id, size)
        {
          if j > i {
            assert !IsLine(items[j], items[i].id, items[i].selectedSize);
          }
        }
      case None =>
    }
  }

  /** `setQuantity` with a positive quantity sets the matching line to it, capped by the line's
      own cap, and changes nothing else; with no matching line it changes nothing. */
  lemma SetQuantityMatched(items: seq<CartItem>, id: string, size: string, quantity: Num)
    requires UniqueLines(items)
    requires SetQuantityValue(quantity) >= 1
    ensures var r := SetQuantitySpec(items, id, size, quantity);
            match FindLine(items, id, size)
            case None => r == items
            case Some(i) =>
              && |r| == |items|
              && r[i] == items[i].(quantity := Capped(SetQuantityValue(quantity), items[i].maxAvailable))
              && (forall j :: 0 <= j < |items| && j != i ==> r[j] == items[j])
  {
    var r := SetQuantitySpec(items, id, size, quantity);
    match FindLine(items, id, size)
    case None =>
      assert r == items;
    case Some(i) =>
      forall j | 0 <= j < |items| && j != i
        ensures !IsLine(items[j], id, size)
      {
        if j > i {
          assert !IsLine(items[j], items[i].id, items[i].selectedSize);
        }
      }
  }

  // ---------------------------------------------------------------------------
  // the store

  class CartStore {
    var items: seq<CartItem>
    var deliveryMethod: DeliveryMethod

    predicate Valid()
      reads this
    {
      ValidLines(items)
    }

    /** The initial state: no lines, standard delivery. */
    constructor ()
      ensures items == [] && deliveryMethod == Standard
      ensures Valid()
    {
      items := [];
      deliveryMethod := Standard;
    }

    /** The index of the first line for (id, size), found by a linear scan. */
    method Find(id: string, size: string) returns (r: Option<nat>)
      ensures r == FindLine(items, id, size)
    {
      var i := 0;
      while i < |items| && !IsLine(items[i], id, size)
        invariant 0 <= i <= |items|
        invariant forall j :: 0 <= j < i ==> !IsLine(items[j], id, size)
      {
        i := i + 1;
      }
      if i < |items| {
        r := Some(i);
        FindLineIsFirst(items, id, size, i);
      } else {
        r := None;
      }
    }

    /** Rebuilds `items` with every (id, size) line relabelled. */
    method Update(id: string, size: string, quantity: int, cap: Option<int>)
      modifies this
      ensures items == UpdateLines(old(items), id, size, quantity, cap)
      ensures deliveryMethod == old(deliveryMethod)
    {
      var out: seq<CartItem> := [];
      var k := 0;
      while k < |items|
        invariant 0 <= k <= |items|
        invariant out == UpdateLines(items[..k], id, size, quantity, cap)
      {
        assert items[..k + 1][..k] == items[..k];
        var item := items[k];
        out := out + [if IsLine(item, id, size) then Relabel(item, quantity, cap) else item];
        k := k + 1;
      }
      assert items[..k] == items;
      items := out;
    }

    method RemoveItem(id: string, size: string)
      modifies this
      ensures items == Without(old(items), id, size)
      ensures deliveryMethod == old(deliveryMethod)
      ensures old(Valid()) ==> Valid()
    {
      var out: seq<CartItem> := [];
      var k := 0;
      while k < |items|
        invariant 0 <= k <= |items|
        invariant out == Without(items[..k], id, size)
      {
        assert items[..k + 1][..k] == items[..k];
        if !IsLine(items[k], id, size) {
          out := out + [items[k]];
        }
        k := k + 1;
      }
      assert items[..k] == items;
      if Valid() {
        WithoutPreservesValid(items, id, size);
      }
      items := out;
    }

    method AddItem(id: string, product: Product, size: string, quantity: Num, maxAvailable: Option<real>)
      modifies this
      ensures items == AddItemSpec(old(items), id, product, size, quantity, maxAvailable)
      ensures deliveryMethod == old(deliveryMethod)
      ensures old(Valid()) ==> Valid()
    {
      ghost var spec := AddItemSpec(items, id, product, size, quantity, maxAvailable);
      if Valid() {
        AddItemPreservesValid(items, id, product, size, quantity, maxAvailable);
      }
      var qty := AddQuantity(quantity);
      var existing := Find(id, size);
      if existing.Some? {
        var line := items[existing.value];
        var cap := if maxAvailable.Some? then Some(CapOf(maxAvailable.value)) else line.maxAvailable;
        var nextQty := Capped(line.quantity + qty, cap);
        assert spec == UpdateLines(items, id, size, nextQty, cap);
        Update(id, size, nextQty, cap);
      } else {
        var cap := if maxAvailable.Some? then Some(CapOf(maxAvailable.value)) else None;
        assert spec == items + [CartItem(id, product, size, Capped(qty, cap), cap)];
        items := items + [CartItem(id, product, size, Capped(qty, cap), cap)];
      }
      assert items == spec;
    }

    method SetQuantity(id: string, size: string, quantity: Num)
      modifies this
      ensures items == SetQuantitySpec(old(items), id, size, quantity)
      ensures deliveryMethod == old(deliveryMethod)
      ensures old(Valid()) ==> Valid()
    {
      if Valid() {
        SetQuantityPreservesValid(items, id, size, quantity);
      }
      var qty := SetQuantityValue(quantity);
      if qty <= 0 {
        RemoveItem(id, size);
        return;
      }
      var current := Find(id, size);
      var cap := if current.Some? then items[current.value].maxAvailable else None;
      Update(id, size, Capped(qty, cap), None);
    }

    method ClearCart()
      modifies this
      ensures items == [] && deliveryMethod == old(deliveryMethod)
      ensures Valid()
    {
      items := [];
    }

    method SetDeliveryMethod(m: DeliveryMethod)
      modifies this
      ensures deliveryMethod == m && items == old(items)
    {
      deliveryMethod := m;
    }
  }

  /** A line found by a scan that passed over no other match is the one `FindLine` returns. */
  lemma {:induction false} FindLineIsFirst(items: seq<CartItem>, id: string, size: string, i: nat)
    requires i < |items| && IsLine(items[i], id, size)
    requires forall j :: 0 <= j < i ==> !IsLine(items[j], id, size)
    ensures FindLine(items, id, size) == Some(i)
  {
    if i > 0 {
      FindLineIsFirst(items[1..], id, size, i - 1);
    }
  }
}
