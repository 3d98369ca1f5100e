/**
  The product form schema shared by the create and update actions: how each submitted
  field is read from the form data, which values pass, and the validated product data.
 */
module ProductSchema {
  import opened Wrappers
  import opened Text
  import opened Json
  import opened Store

  /** `formData.get(key)`: `null` when the field was not submitted, otherwise its text. */
  datatype FormValue = Missing | Present(text: string)

  /** The raw product submission. `imageUrls` is `formData.getAll("imageUrl")`; `sizes` is the
      `sizes` field after `JSON.parse` (absent or empty, unparsable, or decoded). */
  datatype ProductSubmission = ProductSubmission(
    name: FormValue,
    description: FormValue,
    price: FormValue,
    gender: FormValue,
    productType: FormValue,
    imageUrls: seq<string>,
    isFeatured: FormValue,
    sizes: JsonText)

  /** The fields that can carry an error. */
  datatype Field = NameField | DescriptionField | PriceField | GenderField | ProductTypeField | ImageUrlField | SizesField

  /** A validated size entry. */
  datatype SizeInput = SizeInput(value: string, quantity: int)

  /** The validated product data; `price` is in dollars as submitted. */
  datatype ProductData = ProductData(
    name: string,
    description: string,
    price: real,
    gender: Gender,
    productType: ProductType,
    images: seq<string>,
    isFeatured: bool,
    sizes: seq<SizeInput>)

  // ---------------------------------------------------------------------------
  // URLs

  predicate IsAsciiLetter(c: char) {
    'a' <= c <= 'z' || 'A' <= c <= 'Z'
  }

  predicate SchemeChar(c: char) {
    IsAsciiLetter(c) || IsDigit(c) || c == '+' || c == '-' || c == '.'
  }

  /** Schemes whose URLs must name a host. */
  predicate SpecialScheme(scheme: string) {
    scheme == "http" || scheme == "https" || scheme == "ws" || scheme == "wss" || scheme == "ftp"
  }

  /** Drops the leading slashes (either direction) after a scheme. */
  function DropSlashes(s: string): (r: string)
    ensures |r| <= |s|
    ensures r == [] || (r[0] != '/' && r[0] != '\\')
  {
    if s != [] && (s[0] == '/' || s[0] == '\\') then DropSlashes(s[1..]) else s
  }

  predicate HasHost(rest: string) {
    var h := DropSlashes(rest);
    h != [] && h[0] != '?' && h[0] != '#'
  }

  /** `z.string().url()`: an absolute URL, approximated as a scheme (a letter followed by letters,
      digits, `+`, `-` or `.`), a colon, and a host when the scheme is a special one. */
  predicate IsUrl(s: string) {
    exists k | 1 <= k < |s| ::
      && s[k] == ':'
      && IsAsciiLetter(s[0])
      && (forall i | 1 <= i < k :: SchemeChar(s[i]))
      && (SpecialScheme(ToLower(s[..k])) ==> HasHost(s[k + 1..]))
  }

  // ---------------------------------------------------------------------------
  // the field rules

  /** `z.string().min(n)`: a present string whose JavaScript `length` (UTF-16 code units) is at least `n`. */
  predicate MinLength(v: FormValue, n: nat) {
    v.Present? && Utf16Length(v.text) >= n
  }

  /** For `min(1)` counting code units and counting characters agree: the string is non-empty. */
  lemma MinOneIsNonEmpty(v: FormValue)
    ensures MinLength(v, 1) <==> v.Present? && v.text != ""
  {
  }

  /** A character above U+FFFF counts twice: "Nice " and three sneaker emoji is 8 characters
      but 11 code units, so it meets `min(10)`. */
  lemma AstralCharactersCountTwice()
    ensures MinLength(Present("Nice \U{1F45F}\U{1F45F}\U{1F45F}"), 10)
  {
    var t := "Nice \U{1F45F}\U{1F45F}\U{1F45F}";
    Utf16LengthAppend("Nice ", "\U{1F45F}\U{1F45F}\U{1F45F}");
    assert t == "Nice " + "\U{1F45F}\U{1F45F}\U{1F45F}";
  }

  /** `z.coerce.number()` on a form value: `Number(null)` is 0. */
  function Coerced(v: FormValue): Num {
    match v
    case Missing => Finite(0.0)
    case Present(t) => NumberFromText(t)
  }

  predicate PriceOk(v: FormValue) {
    Coerced(v).Finite? && Coerced(v).value >= 0.0
  }

  /** `z.enum([...]).default(...)`: the default only replaces `undefined`, and a missing form
      field is `null`, so a missing value fails like an unknown one. */
  predicate GenderOk(v: FormValue) {
    v.Present? && ParseGender(v.text).Some?
  }

  predicate ProductTypeOk(v: FormValue) {
    v.Present? && ParseProductType(v.text).Some?
  }

  /** The submitted image list after dropping empty strings. */
  function ImageList(urls: seq<string>): seq<string> {
    NonEmpty(urls)
  }

  predicate ImagesOk(urls: seq<string>) {
    var images := ImageList(urls);
    |images| >= 1 && forall i :: 0 <= i < |images| ==> IsUrl(images[i])
  }

  /** `val === "on" || val === true`. */
  function Featured(v: FormValue): (r: bool)
    ensures r <==> v == Present("on")
  {
    v.Present? && v.text == "on"
  }

  /** `z.coerce.number()` on a size's quantity member: a missing member is `Number(undefined)`, NaN. */
  function QuantityMember(m: Option<Json>): (r: Num)
    ensures m.None? ==> r.NonFinite?
    ensures m.Some? ==> r == NumberOf(m.value)
  {
    match m
    case None => NonFinite
    case Some(v) => NumberOf(v)
  }

  predicate IsWholeNumber(n: Num) {
    n.Finite? && n.value == n.value.Floor as real
  }

  /** One element of the sizes array: an object whose `value` is a non-empty string and whose
      `quantity` coerces to a whole number of at least 0. */
  function SizeEntry(x: Json): (r: Option<SizeInput>)
    ensures r.Some? ==> r.value.value != "" && r.value.quantity >= 0
    ensures r.Some? <==>
              && Member(x, "value").Some? && Member(x, "value").value.JStr? && Member(x, "value").value.s != ""
              && IsWholeNumber(QuantityMember(Member(x, "quantity")))
              && QuantityMember(Member(x, "quantity")).value >= 0.0
  {
    var v := Member(x, "value");
    var q := QuantityMember(Member(x, "quantity"));
    if v.Some? && v.value.JStr? && v.value.s != "" && IsWholeNumber(q) && q.value >= 0.0 then
      Some(SizeInput(v.value.s, q.value.Floor))
    else None
  }

  /** Every element passes; the entries in order. */
  function SizeEntries(elems: seq<Json>): (r: Option<seq<SizeInput>>)
    ensures r.Some? <==> forall i :: 0 <= i < |elems| ==> SizeEntry(elems[i]).Some?
    ensures r.Some? ==> |r.value| == |elems| && forall i :: 0 <= i < |elems| ==> r.value[i] == SizeEntry(elems[i]).value
  {
    if elems == [] then Some([])
    else
      var head := SizeEntry(elems[0]);
      var tail := SizeEntries(elems[1..]);
      assert forall i :: 1 <= i < |elems| ==> elems[1..][i - 1] == elems[i];
      if head.Some? && tail.Some? then Some([head.value] + tail.value)
      else None
  }

  /** The sizes preprocessing and array check: a missing or unparsable value is the empty list;
      a decoded value must be an array of valid entries. */
  function ParseSizes(raw: JsonText): (r: Option<seq<SizeInput>>)
    ensures raw.Absent? || raw.Malformed? ==> r == Some([])
    ensures raw.Parsed? && !raw.value.JArr? ==> r.None?
    ensures r.Some? ==> forall i :: 0 <= i < |r.value| ==> r.value[i].value != "" && r.value[i].quantity >= 0
  {
    match raw
    case Absent => Some([])
    case Malformed => Some([])
    case Parsed(JArr(elems)) => SizeEntries(elems)
    case Parsed(_) => None
  }

  // ---------------------------------------------------------------------------
  // the schema

  /** The rule each field must meet, as `productSchema` states it. */
  predicate Fails(form: ProductSubmission, f: Field) {
    match f
    case NameField => !MinLength(form.name, 1)
    case DescriptionField => !MinLength(form.description, 10)
    case PriceField => !PriceOk(form.price)
    case GenderField => !GenderOk(form.gender)
    case ProductTypeField => !ProductTypeOk(form.productType)
    case ImageUrlField => !ImagesOk(form.imageUrls)
    case SizesField => ParseSizes(form.sizes).None?
  }

  const AllFields: set<Field> :=
    {NameField, DescriptionField, PriceField, GenderField, ProductTypeField, ImageUrlField, SizesField}

  lemma EveryFieldListed()
    ensures forall f: Field :: f in AllFields
  {
    forall f: Field
      ensures f in AllFields
    {
      match f
      case NameField =>
      case DescriptionField =>
      case PriceField =>
      case GenderField =>
      case ProductTypeField =>
      case ImageUrlField =>
      case SizesField =>
    }
  }

  /** The fields that fail, each named once. */
  function Errors(form: ProductSubmission): (r: set<Field>)
    ensures forall f :: f in r <==> Fails(form, f)
  {
    EveryFieldListed();
    set f | f in AllFields && Fails(form, f)
  }

  datatype Validation = Invalid(fields: set<Field>) | Valid(data: ProductData)

  /** `productSchema.safeParse`: the failing fields, or the parsed data. */
  function Validate(form: ProductSubmission): (r: Validation)
    ensures r.Invalid? ==> r.fields != {} && forall f :: f in r.fields <==> Fails(form, f)
    ensures r.Valid? <==> forall f :: !Fails(form, f)
    ensures r.Valid? ==>
              && form.name == Present(r.data.name) && |r.data.name| >= 1
              && form.description == Present(r.data.description) && Utf16Length(r.data.description) >= 10
              && r.data.price >= 0.0 && Finite(r.data.price) == Coerced(form.price)
              && form.gender == Present(GenderName(r.data.gender))
              && form.productType == Present(ProductTypeName(r.data.productType))
              && r.data.images == ImageList(form.imageUrls) && |r.data.images| >= 1
              && r.data.isFeatured == (form.isFeatured == Present("on"))
              && Some(r.data.sizes) == ParseSizes(form.sizes)
  {
    var errors := Errors(form);
    if errors != {} then Invalid(errors)
    else
      assert !Fails(form, NameField) && !Fails(form, DescriptionField) && !Fails(form, PriceField);
      assert !Fails(form, GenderField) && !Fails(form, ProductTypeField);
      assert !Fails(form, ImageUrlField) && !Fails(form, SizesField);
      Valid(ProductData(
        form.name.text,
        form.description.text,
        Coerced(form.price).value,
        ParseGender(form.gender.text).value,
        ParseProductType(form.productType.text).value,
        ImageList(form.imageUrls),
        Featured(form.isFeatured),
        ParseSizes(form.sizes).value))
  }

  /** What a product action hands back to the form: the failing fields with a message, a
      database failure message, or a redirect to the product list. */
  datatype FormState = FieldErrors(fields: set<Field>, message: string) | Failed(message: string) | Redirected(path: string)

  const ProductListPath := "/admin/products"

  /** The model's conversion of the stored price to whole cents: the nearest cent, halves rounded up.
      The product row itself stores the submitted `price` as it is. */
  function PriceCents(price: real): (r: int)
    ensures price >= 0.0 ==> r >= 0
    ensures (r as real) - 0.5 <= price * 100.0 < (r as real) + 0.5
  {
    (price * 100.0 + 0.5).Floor
  }

  /** Size rows for a product from a validated list; a repeated value keeps its last quantity. */
  function SizeRows(productId: string, sizes: seq<SizeInput>): (r: map<SizeKey, int>)
    ensures forall k :: k in r <==> k.productId == productId && exists i :: 0 <= i < |sizes| && sizes[i].value == k.value
  {
    if sizes == [] then map[]
    else
      var init := sizes[..|sizes| - 1];
      var last := sizes[|sizes| - 1];
      var r := SizeRows(productId, init)[SizeKey(productId, last.value) := last.quantity];
      assert forall i :: 0 <= i < |init| ==> init[i] == sizes[i];
      r
  }

  /** With distinct values, every submitted size becomes exactly one row with its quantity. */
  lemma {:induction false} SizeRowsExact(productId: string, sizes: seq<SizeInput>)
    requires forall i, j :: 0 <= i < j < |sizes| ==> sizes[i].value != sizes[j].value
    ensures forall i :: 0 <= i < |sizes| ==> SizeRows(productId, sizes)[SizeKey(productId, sizes[i].value)] == sizes[i].quantity
  {
    if sizes != [] {
      var init := sizes[..|sizes| - 1];
      SizeRowsExact(productId, init);
      forall i | 0 <= i < |sizes|
        ensures SizeRows(productId, sizes)[SizeKey(productId, sizes[i].value)] == sizes[i].quantity
      {
        if i < |sizes| - 1 {
          assert init[i] == sizes[i];
          assert sizes[i].value != sizes[|sizes| - 1].value;
        }
      }
    }
  }

  /** Row quantities come from validated entries, so they are never negative. */
  lemma {:induction false} SizeRowsNonNegative(productId: string, sizes: seq<SizeInput>)
    requires forall i :: 0 <= i < |sizes| ==> sizes[i].quantity >= 0
    ensures forall k :: k in SizeRows(productId, sizes) ==> SizeRows(productId, sizes)[k] >= 0
  {
    if sizes != [] {
      SizeRowsNonNegative(productId, sizes[..|sizes| - 1]);
    }
  }
}
