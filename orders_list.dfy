/**
  The admin orders table: one row per order with its short id, total and product labels.
 */
module OrdersList {
  import opened Text
  import opened Money
  import opened Store
  import opened OrderReceipt
  import opened OrderDetail

  /** The list's own fee table, in whole dollars. */
  const ListPrices: map<string, int> := map["standard" := 20, "express" := 37, "pickup" := 0, "us" := 30]

  function ListShipping(m: string): int {
    if m in ListPrices then Cents(ListPrices[m]) else 0
  }

  datatype Row = Row(orderId: string, shortId: string, total: int, products: seq<string>)

  function SizeLabel(size: string): string {
    if size != "" then "(" + size + ")" else ""
  }

  /** `` `${name} ${sizeLabel} x${quantity}`.replace(/\s+/g, " ").trim() ``. */
  function ProductLabel(line: OrderLine): string {
    Trim(CollapseSpaces(line.product.name + " " + SizeLabel(line.item.size) + " x" + IntText(line.item.quantity)))
  }

  function RowOf(o: OrderView): Row {
    Row(o.id, LastN(o.id, 6), Sum(o.lines, LineAmount) + ListShipping(o.deliveryMethod),
        seq(|o.lines|, i requires 0 <= i < |o.lines| => ProductLabel(o.lines[i])))
  }

  /** `rows`: one per order, in order. Each row's total is the one the detail modal shows, its
      short id upper-cased is the modal's and the e-mail's, and it has one label per item. */
  function Rows(orders: seq<OrderView>): (r: seq<Row>)
    ensures |r| == |orders|
    ensures forall i :: 0 <= i < |orders| ==>
              && r[i].orderId == orders[i].id
              && r[i].total == Total(orders[i])
              && r[i].shortId == LastN(orders[i].id, 6)
              && ToUpper(r[i].shortId) == ShortOrderId(orders[i].id)
              && |r[i].products| == |orders[i].lines|
              && (forall j :: 0 <= j < |orders[i].lines| ==> r[i].products[j] == ProductLabel(orders[i].lines[j]))
  {
    seq(|orders|, i requires 0 <= i < |orders| => RowOf(orders[i]))
  }

  datatype ListView = NoOrders | Table(rows: seq<Row>)

  function ViewOf(orders: seq<OrderView>): (v: ListView)
    ensures v.NoOrders? <==> orders == []
    ensures v.Table? ==> |v.rows| == |orders| && |v.rows| > 0
  {
    if |orders| == 0 then NoOrders else Table(Rows(orders))
  }

  lemma CollapseNoSpaces(s: string)
    requires forall i :: 0 <= i < |s| ==> !IsSpace(s[i])
    ensures CollapseSpaces(s) == s
  {
    CollapseKeepsSingleBlanks(s);
  }

  /** A single blank before a word without white space survives collapsing. */
  lemma CollapseSingleBlank(w: string)
    requires w != [] && forall i :: 0 <= i < |w| ==> !IsSpace(w[i])
    ensures CollapseSpaces([' '] + w) == [' '] + w
  {
    CollapseNoSpaces(w);
    CollapseBlankCons(w);
  }

  /** Two blanks before a word without white space collapse to one. */
  lemma CollapseDoubleBlank(w: string)
    requires w != [] && forall i :: 0 <= i < |w| ==> !IsSpace(w[i])
    ensures CollapseSpaces([' ', ' '] + w) == [' '] + w
  {
    CollapseDoubleBlankCons(w);
    CollapseNoSpaces(w);
  }

  /** Collapsing " x" followed by a number keeps it, and so does collapsing it with a second
      blank in front. */
  lemma CollapseQuantity(q: int)
    ensures CollapseSpaces(" x" + IntText(q)) == " x" + IntText(q)
    ensures CollapseSpaces("  x" + IntText(q)) == " x" + IntText(q)
  {
    var w := ['x'] + IntText(q);
    assert forall i :: 0 <= i < |w| ==> !IsSpace(w[i]) by {
      forall i | 0 <= i < |w|
        ensures !IsSpace(w[i])
      {
        if i > 0 {
          assert w[i] == IntText(q)[i - 1];
        }
      }
    }
    assert " x" + IntText(q) == [' '] + w;
    assert "  x" + IntText(q) == [' ', ' '] + w;
    CollapseSingleBlank(w);
    CollapseDoubleBlank(w);
  }

  /** " (SIZE)" for a tidy size survives collapsing. */
  lemma CollapseBracketedSize(size: string)
    requires Tidy(size)
    ensures CollapseSpaces(" (" + size + ")") == " (" + size + ")"
  {
    CollapseKeepsSingleBlanks(size);
    CollapseAppend(size, [')']);
    CollapseCons(')', []);
    assert [')'] + [] == [')'];
    var inner := size + [')'];
    CollapseCons('(', inner);
    CollapseBlankCons(['('] + inner);
    AppendAssoc(" (", size, ")");
    AppendAssoc([' '], ['('], inner);
    assert [' '] + ['('] == " (";
  }

  /** A label that starts with a tidy name and ends with a number is its own trim. */
  lemma TrimLabel(e: string, name: string, digits: string, q: int)
    requires name != "" && Tidy(name) && digits == IntText(q)
    requires |e| >= |name| + |digits| && e[..|name|] == name && e[|e| - |digits|..] == digits
    ensures Trim(e) == e
  {
    assert e[0] == e[..|name|][0] == name[0];
    assert e[|e| - 1] == e[|e| - |digits|..][|digits| - 1] == digits[|digits| - 1];
    TrimKeeps(e);
  }

  /** Collapsing passes over a tidy, non-empty leading name unchanged. */
  lemma CollapseAfterName(name: string, rest: string)
    requires name != "" && Tidy(name)
    ensures CollapseSpaces(name + rest) == name + CollapseSpaces(rest)
  {
    CollapseKeepsSingleBlanks(name);
    CollapseAppend(name, rest);
  }

  lemma ShapeWithoutSize(name: string, digits: string)
    ensures name + " " + "" + " x" + digits == name + ("  x" + digits)
    ensures name + " x" + digits == name + (" x" + digits)
  {
  }

  lemma ShapeWithSize(name: string, size: string, digits: string)
    ensures name + " " + ("(" + size + ")") + " x" + digits == name + (" (" + size + ")" + " x" + digits)
    ensures name + " (" + size + ")" + " x" + digits == name + (" (" + size + ")" + " x" + digits)
  {
  }

  lemma LabelWithoutSize(name: string, digits: string, q: int)
    requires name != "" && Tidy(name) && digits == IntText(q)
    ensures Trim(CollapseSpaces(name + " " + "" + " x" + digits)) == name + " x" + digits
  {
    ShapeWithoutSize(name, digits);
    CollapseAfterName(name, "  x" + digits);
    CollapseQuantity(q);
    TrimLabel(name + " x" + digits, name, digits, q);
  }

  /** The bracketed size and the quantity survive collapsing together. */
  lemma CollapseSizeAndQuantity(size: string, digits: string, q: int)
    requires Tidy(size) && digits == IntText(q)
    ensures CollapseSpaces(" (" + size + ")" + " x" + digits) == " (" + size + ")" + " x" + digits
  {
    var middle := " (" + size + ")";
    assert middle[|middle| - 1] == ')';
    assert " (" + size + ")" + " x" + digits == middle + (" x" + digits);
    CollapseAppend(middle, " x" + digits);
    CollapseQuantity(q);
    CollapseBracketedSize(size);
  }

  lemma LabelWithSize(name: string, size: string, digits: string, q: int)
    requires name != "" && Tidy(name) && Tidy(size) && digits == IntText(q)
    ensures Trim(CollapseSpaces(name + " " + ("(" + size + ")") + " x" + digits)) == name + " (" + size + ")" + " x" + digits
  {
    ShapeWithSize(name, size, digits);
    CollapseAfterName(name, " (" + size + ")" + " x" + digits);
    CollapseSizeAndQuantity(size, digits, q);
    TrimLabel(name + " (" + size + ")" + " x" + digits, name, digits, q);
  }

  /** For a tidy, non-empty product name and an item without a size the label reads "NAME xQTY". */
  lemma ProductLabelWithoutSize(line: OrderLine)
    requires line.product.name != "" && Tidy(line.product.name) && line.item.size == ""
    ensures ProductLabel(line) == line.product.name + " x" + IntText(line.item.quantity)
  {
    LabelWithoutSize(line.product.name, IntText(line.item.quantity), line.item.quantity);
  }

  /** For a tidy, non-empty product name and a tidy, non-empty size the label reads
      "NAME (SIZE) xQTY". */
  lemma ProductLabelWithSize(line: OrderLine)
    requires line.product.name != "" && Tidy(line.product.name) && Tidy(line.item.size) && line.item.size != ""
    ensures ProductLabel(line) == line.product.name + " (" + line.item.size + ")" + " x" + IntText(line.item.quantity)
  {
    LabelWithSize(line.product.name, line.item.size, IntText(line.item.quantity), line.item.quantity);
  }
}
