/**
  The admin product form's own state: the image list, the editable size rows, which action a
  submission goes to, and what the submission carries to the schema.
 */
module ProductFormState {
  import opened Wrappers
  import opened Text
  import opened Json
  import opened Store
  import opened ProductSchema

  /** A number typed into a number input: the decimal literal `digits / 10^scale`. */
  datatype Decimal = Decimal(digits: int, scale: nat)

  function ValueOf(q: Decimal): real {
    DecimalValue(q.digits, q.scale)
  }

  /** One editable size row. */
  datatype SizeDraft = SizeDraft(value: string, quantity: Decimal)

  /** A size row of the product being edited, as loaded. */
  datatype StoredSize = StoredSize(value: string, quantity: int)

  /** The product being edited, with its id and size rows. */
  datatype InitialProduct = InitialProduct(id: string, product: Product, sizes: seq<StoredSize>)

  /** Where a submission goes. */
  datatype FormAction = CreateAction | UpdateAction(productId: string)

  predicate Distinct(xs: seq<string>) {
    forall i, j :: 0 <= i < j < |xs| ==> xs[i] != xs[j]
  }

  /** `xs.filter(x => x !== url)`. */
  function Drop(xs: seq<string>, url: string): (r: seq<string>)
    ensures url !in r
    ensures forall x :: x in r <==> x in xs && x != url
    ensures url !in xs ==> r == xs
  {
    if xs == [] then []
    else if xs[0] == url then Drop(xs[1..], url)
    else [xs[0]] + Drop(xs[1..], url)
  }

  lemma {:induction false} DropKeepsDistinct(xs: seq<string>, url: string)
    requires Distinct(xs)
    ensures Distinct(Drop(xs, url))
  {
    if xs != [] {
      DropKeepsDistinct(xs[1..], url);
      assert xs[0] !in xs[1..] by {
        forall j | 0 <= j < |xs[1..]|
          ensures xs[1..][j] != xs[0]
        {
          assert xs[1..][j] == xs[j + 1];
        }
      }
      if xs[0] != url {
        var rest := Drop(xs[1..], url);
        var r := [xs[0]] + rest;
        forall i, j | 0 <= i < j < |r|
          ensures r[i] != r[j]
        {
          if i == 0 {
            assert r[j] == rest[j - 1] && rest[j - 1] in rest;
          } else {
            assert r[i] == rest[i - 1] && r[j] == rest[j - 1];
          }
        }
      }
    }
  }

  /** The loaded rows as drafts, quantities written as whole numbers. */
  function DraftsOf(sizes: seq<StoredSize>): (r: seq<SizeDraft>)
    ensures |r| == |sizes|
    ensures forall i :: 0 <= i < |r| ==> r[i] == SizeDraft(sizes[i].value, Decimal(sizes[i].quantity, 0))
  {
    seq(|sizes|, i requires 0 <= i < |sizes| => SizeDraft(sizes[i].value, Decimal(sizes[i].quantity, 0)))
  }

  /** `JSON.stringify` of one draft, decoded again. */
  function DraftJson(d: SizeDraft): Json {
    JObj(map["value" := JStr(d.value), "quantity" := JNum(d.quantity.digits, d.quantity.scale)])
  }

  /** The hidden `sizes` field: `JSON.stringify(sizes)`, which always parses. */
  function SubmittedSizes(drafts: seq<SizeDraft>): JsonText {
    Parsed(JArr(seq(|drafts|, i requires 0 <= i < |drafts| => DraftJson(drafts[i]))))
  }

  /** A draft the schema accepts: a value, and a whole quantity of at least 0. */
  predicate DraftOk(d: SizeDraft) {
    d.value != "" && ValueOf(d.quantity) >= 0.0 && ValueOf(d.quantity) == ValueOf(d.quantity).Floor as real
  }

  lemma DraftEntry(d: SizeDraft)
    ensures SizeEntry(DraftJson(d)).Some? <==> DraftOk(d)
    ensures DraftOk(d) ==> SizeEntry(DraftJson(d)).value == SizeInput(d.value, ValueOf(d.quantity).Floor)
  {
    var x := DraftJson(d);
    assert Member(x, "value") == Some(JStr(d.value));
    assert Member(x, "quantity") == Some(JNum(d.quantity.digits, d.quantity.scale));
  }

  /** The server reads back exactly the drafts the form holds: the sizes pass the schema
      exactly when every row has a value and a whole quantity of at least 0, and they then
      arrive in order with those values and quantities. */
  lemma SubmittedSizesRoundTrip(drafts: seq<SizeDraft>)
    ensures ParseSizes(SubmittedSizes(drafts)).Some? <==> forall i :: 0 <= i < |drafts| ==> DraftOk(drafts[i])
    ensures ParseSizes(SubmittedSizes(drafts)).Some? ==>
              var r := ParseSizes(SubmittedSizes(drafts)).value;
              |r| == |drafts| && forall i :: 0 <= i < |drafts| ==> r[i] == SizeInput(drafts[i].value, ValueOf(drafts[i].quantity).Floor)
  {
    var elems := SubmittedSizes(drafts).value.elems;
    forall i | 0 <= i < |drafts|
      ensures SizeEntry(elems[i]).Some? <==> DraftOk(drafts[i])
      ensures DraftOk(drafts[i]) ==> SizeEntry(elems[i]).value == SizeInput(drafts[i].value, ValueOf(drafts[i].quantity).Floor)
    {
      DraftEntry(drafts[i]);
    }
  }

  /** Stored rows come back unchanged through the form when none was edited. */
  lemma LoadedSizesRoundTrip(sizes: seq<StoredSize>)
    requires forall i :: 0 <= i < |sizes| ==> sizes[i].value != "" && sizes[i].quantity >= 0
    ensures ParseSizes(SubmittedSizes(DraftsOf(sizes))) == Some(seq(|sizes|, i requires 0 <= i < |sizes| => SizeInput(sizes[i].value, sizes[i].quantity)))
  {
    var drafts := DraftsOf(sizes);
    forall i | 0 <= i < |drafts|
      ensures DraftOk(drafts[i]) && ValueOf(drafts[i].quantity).Floor == sizes[i].quantity
    {
      assert ValueOf(drafts[i].quantity) == sizes[i].quantity as real;
    }
    SubmittedSizesRoundTrip(drafts);
    var r := ParseSizes(SubmittedSizes(drafts)).value;
    var expected := seq(|sizes|, i requires 0 <= i < |sizes| => SizeInput(sizes[i].value, sizes[i].quantity));
    assert forall i :: 0 <= i < |sizes| ==> r[i] == expected[i];
    assert r == expected;
  }

  class ProductEditor {
    /** `initialData?.id` when a product is being edited. */
    const editing: Option<string>
    const initialGender: Gender
    const initialProductType: ProductType
    var images: seq<string>
    var sizes: seq<SizeDraft>

    constructor (initial: Option<InitialProduct>)
      ensures editing == (if initial.Some? then Some(initial.value.id) else None)
      ensures images == (if initial.Some? then initial.value.product.images else [])
      ensures sizes == (if initial.Some? then DraftsOf(initial.value.sizes) else [])
      ensures initialGender == (if initial.Some? then initial.value.product.gender else Men)
      ensures initialProductType == (if initial.Some? then initial.value.product.productType else Shoes)
    {
      if initial.Some? {
        editing := Some(initial.value.id);
        images := initial.value.product.images;
        sizes := DraftsOf(initial.value.sizes);
        initialGender := initial.value.product.gender;
        initialProductType := initial.value.product.productType;
      } else {
        editing := None;
        images := [];
        sizes := [];
        initialGender := Men;
        initialProductType := Shoes;
      }
    }

    /** The bound action: update the edited product when it has an id, otherwise create. */
    function Action(): (r: FormAction)
      reads this
      ensures r.UpdateAction? <==> editing.Some? && editing.value != ""
      ensures r.UpdateAction? ==> Some(r.productId) == editing
    {
      if editing.Some? && editing.value != "" then UpdateAction(editing.value) else CreateAction
    }

    /** An uploaded image is appended unless it is already listed. */
    method AddImage(url: string)
      modifies this
      ensures images == if url in old(images) then old(images) else old(images) + [url]
      ensures url in images && (forall x :: x in old(images) ==> x in images)
      ensures old(Distinct(images)) ==> Distinct(images)
      ensures sizes == old(sizes)
    {
      if url !in images {
        images := images + [url];
      }
    }

    /** Removing an image drops every copy of it and keeps the rest in order. */
    method RemoveImage(url: string)
      modifies this
      ensures images == Drop(old(images), url)
      ensures old(Distinct(images)) ==> Distinct(images)
      ensures sizes == old(sizes)
    {
      if Distinct(images) {
        DropKeepsDistinct(images, url);
      }
      images := Drop(images, url);
    }

    /** "Add Size" appends an empty row with quantity 0. */
    method AddSize()
      modifies this
      ensures sizes == old(sizes) + [SizeDraft("", Decimal(0, 0))]
      ensures images == old(images)
    {
      sizes := sizes + [SizeDraft("", Decimal(0, 0))];
    }

    /** "Remove" on row `idx`; any other index leaves the rows alone. */
    method RemoveSize(idx: int)
      modifies this
      ensures 0 <= idx < |old(sizes)| ==> sizes == old(sizes)[..idx] + old(sizes)[idx + 1..]
      ensures !(0 <= idx < |old(sizes)|) ==> sizes == old(sizes)
      ensures images == old(images)
    {
      if 0 <= idx < |sizes| {
        sizes := sizes[..idx] + sizes[idx + 1..];
      }
    }

    /** Typing in a row's value field. */
    method EditSizeValue(idx: int, value: string)
      modifies this
      ensures 0 <= idx < |old(sizes)| ==> sizes == old(sizes)[idx := old(sizes)[idx].(value := value)]
      ensures !(0 <= idx < |old(sizes)|) ==> sizes == old(sizes)
      ensures images == old(images)
    {
      if 0 <= idx < |sizes| {
        sizes := sizes[idx := sizes[idx].(value := value)];
      }
    }

    /** Typing in a row's quantity field: `typed` is `Number` of the input, none when that is
        not finite, which stores 0. */
    method EditSizeQuantity(idx: int, typed: Option<Decimal>)
      modifies this
      ensures 0 <= idx < |old(sizes)| ==> sizes == old(sizes)[idx := old(sizes)[idx].(quantity := typed.GetOr(Decimal(0, 0)))]
      ensures !(0 <= idx < |old(sizes)|) ==> sizes == old(sizes)
      ensures images == old(images)
    {
      if 0 <= idx < |sizes| {
        sizes := sizes[idx := sizes[idx].(quantity := typed.GetOr(Decimal(0, 0)))];
      }
    }

    /** The form data one submission carries: the typed fields, one `imageUrl` per listed image,
        the checkbox ("on" when ticked, absent otherwise) and the sizes as JSON. */
    function Submission(name: string, description: string, price: string, gender: string, productType: string,
                        featured: bool): (r: ProductSubmission)
      reads this
      ensures r.imageUrls == images && r.sizes == SubmittedSizes(sizes)
      ensures Featured(r.isFeatured) == featured
    {
      ProductSubmission(Present(name), Present(description), Present(price), Present(gender), Present(productType),
                        images, if featured then Present("on") else Missing, SubmittedSizes(sizes))
    }
  }

  /** A freshly added size row blocks saving until it is given a value: with the empty row
      present the schema reports the sizes field. */
  lemma BlankRowBlocksSubmission(drafts: seq<SizeDraft>, form: ProductSubmission)
    requires form.sizes == SubmittedSizes(drafts + [SizeDraft("", Decimal(0, 0))])
    ensures Validate(form).Invalid? && SizesField in Validate(form).fields
  {
    var all := drafts + [SizeDraft("", Decimal(0, 0))];
    SubmittedSizesRoundTrip(all);
    assert !DraftOk(all[|drafts|]);
    assert Fails(form, SizesField);
  }
}
