/**
  The catalogue's filter sidebar: the size buttons offered for the chosen product type, the
  size toggle and its "Clear" link, and the product-type checkboxes. Each edits a copy of the
  current query and navigates to the result.
 */
module FilterSidebar {
  import opened Wrappers
  import opened QueryParams

  const ClothingSizes: seq<string> := ["XS", "S", "M", "L", "XL", "XXL"]
  const ShoeSizes: seq<string> := ["7", "8", "9", "10", "11", "12", "13", "14"]
  const AccessorySizes: seq<string> := ["One Size"]

  /** `getSizes`: the size buttons for the `type` parameter. */
  function SizesFor(productType: string): seq<string> {
    if productType == "CLOTHING" then ClothingSizes
    else if productType == "SHOES" then ShoeSizes
    else if productType == "ACCESSORIES" then AccessorySizes
    else ClothingSizes + ShoeSizes
  }

  /** `searchParams.get("type") || ""`. */
  function TypeParam(ps: seq<Pair>): string {
    Lookup(ps, "type").GetOr("")
  }

  /** `searchParams.get("size") || ""`. */
  function CurrentSize(ps: seq<Pair>): string {
    Lookup(ps, "size").GetOr("")
  }

  /** The "Clear" link shows while a size is chosen; the type checkboxes only while no type is. */
  predicate ClearShown(ps: seq<Pair>) {
    CurrentSize(ps) != ""
  }

  predicate TypeOptionsShown(ps: seq<Pair>) {
    TypeParam(ps) == ""
  }

  predicate Distinct(xs: seq<string>) {
    forall i, j :: 0 <= i < j < |xs| ==> xs[i] != xs[j]
  }

  /** Six clothing sizes, eight shoe sizes, one accessory size, and both lists in that order when
      no known type is chosen; no menu repeats a size, and "One Size" appears only for accessories. */
  lemma SizeMenus(productType: string)
    ensures productType == "CLOTHING" ==> |SizesFor(productType)| == 6
    ensures productType == "SHOES" ==> |SizesFor(productType)| == 8
    ensures productType == "ACCESSORIES" ==> SizesFor(productType) == ["One Size"]
    ensures productType != "CLOTHING" && productType != "SHOES" && productType != "ACCESSORIES" ==>
              SizesFor(productType) == SizesFor("CLOTHING") + SizesFor("SHOES") && |SizesFor(productType)| == 14
    ensures Distinct(SizesFor(productType))
    ensures "One Size" in SizesFor(productType) <==> productType == "ACCESSORIES"
  {
    var r := SizesFor(productType);
    assert "One Size" !in ClothingSizes + ShoeSizes;
  }

  /** `updateSize`: clicking the chosen size removes the `size` parameter, any other sets it. */
  method UpdateSize(current: seq<Pair>, basePath: string, size: string) returns (next: seq<Pair>, target: string)
    ensures size == CurrentSize(current) ==> next == Deleted(current, "size")
    ensures size != CurrentSize(current) ==> next == SetSpec(current, "size", size)
    ensures target == Target(basePath, next)
  {
    var params := new SearchParams(current);
    if size == CurrentSize(current) {
      params.Delete("size");
    } else {
      params.Set("size", size);
    }
    var qs := params.ToString();
    target := if qs != "" then basePath + "?" + qs else basePath;
    next := params.pairs;
  }

  /** `clearSize`. */
  method ClearSize(current: seq<Pair>, basePath: string) returns (next: seq<Pair>, target: string)
    ensures next == Deleted(current, "size")
    ensures target == Target(basePath, next)
  {
    var params := new SearchParams(current);
    params.Delete("size");
    var qs := params.ToString();
    target := if qs != "" then basePath + "?" + qs else basePath;
    next := params.pairs;
  }

  /** A type checkbox: checking sets `type` to its value, unchecking removes `type`. */
  method OnTypeChange(current: seq<Pair>, basePath: string, value: string, checked: bool)
    returns (next: seq<Pair>, target: string)
    ensures checked ==> next == SetSpec(current, "type", value)
    ensures !checked ==> next == Deleted(current, "type")
    ensures target == Target(basePath, next)
  {
    var params := new SearchParams(current);
    if checked {
      params.Set("type", value);
    } else {
      params.Delete("type");
    }
    var qs := params.ToString();
    target := if qs != "" then basePath + "?" + qs else basePath;
    next := params.pairs;
  }

  /** A size click selects that size, or deselects it when it was the chosen one; every other
      parameter keeps its pairs in order; the target has a query exactly when pairs remain. */
  lemma SizeClick(current: seq<Pair>, basePath: string, size: string, other: string)
    requires size != ""
    ensures var next := if size == CurrentSize(current) then Deleted(current, "size") else SetSpec(current, "size", size);
            && CurrentSize(next) == (if size == CurrentSize(current) then "" else size)
            && (other != "size" ==> Only(next, other) == Only(current, other))
            && (Target(basePath, next) == basePath <==> next == [])
  {
    LookupAfterEdits(current, "size", size, other);
    OnlyAfterSet(current, "size", size, other);
    OnlyAfterDelete(current, "size", other);
  }

  /** Clicking a size twice, starting with none chosen, restores the original query. */
  lemma SizeClickTwice(current: seq<Pair>, size: string)
    requires Lookup(current, "size") == None && size != ""
    ensures var once := SetSpec(current, "size", size);
            size == CurrentSize(once) && Deleted(once, "size") == current
  {
    LookupAfterEdits(current, "size", size, "size");
    SetThenDelete(current, "size", size);
  }

  /** "Clear" removes only the size, and a checkbox edits only the type. */
  lemma ClearAndTypeKeepOthers(current: seq<Pair>, value: string, other: string)
    ensures CurrentSize(Deleted(current, "size")) == ""
    ensures other != "size" ==> Only(Deleted(current, "size"), other) == Only(current, other)
    ensures TypeParam(SetSpec(current, "type", value)) == value && TypeParam(Deleted(current, "type")) == ""
    ensures other != "type" ==> Only(SetSpec(current, "type", value), other) == Only(current, other)
                                && Only(Deleted(current, "type"), other) == Only(current, other)
  {
    LookupAfterEdits(current, "size", "", other);
    OnlyAfterDelete(current, "size", other);
    LookupAfterEdits(current, "type", value, other);
    OnlyAfterSet(current, "type", value, other);
    OnlyAfterDelete(current, "type", other);
  }
}
