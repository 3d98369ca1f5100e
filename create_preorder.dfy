/**
  Recording a preorder request from the product page's form: validation, then a new preorder
  in status "PENDING".
 */
module CreatePreorderAction {
  import opened Wrappers
  import opened Store
  import opened ProductSchema

  /** The submitted fields, each as `formData.get` returns it. */
  datatype PreorderSubmission = PreorderSubmission(
    customerName: FormValue,
    phoneNumber: FormValue,
    instagram: FormValue,
    productName: FormValue,
    productImage: FormValue,
    size: FormValue)

  datatype PreorderField = CustomerNameField | PhoneNumberField | InstagramField | ProductNameField | ProductImageField | SizeField

  const FieldErrorMessage := "Missing Fields. Failed to Create Preorder."
  const DatabaseErrorMessage := "Database Error: Failed to create preorder"
  const PendingStatus := "PENDING"

  /** `preorderSchema`: four required non-empty strings, an image URL, and an instagram handle
      that may be empty but, being `optional` rather than nullable, must be submitted. */
  predicate Fails(form: PreorderSubmission, f: PreorderField) {
    match f
    case CustomerNameField => !MinLength(form.customerName, 1)
    case PhoneNumberField => !MinLength(form.phoneNumber, 1)
    case InstagramField => form.instagram.Missing?
    case ProductNameField => !MinLength(form.productName, 1)
    case ProductImageField => !(form.productImage.Present? && IsUrl(form.productImage.text))
    case SizeField => !MinLength(form.size, 1)
  }

  const AllFields: set<PreorderField> :=
    {CustomerNameField, PhoneNumberField, InstagramField, ProductNameField, ProductImageField, SizeField}

  lemma EveryFieldListed()
    ensures forall f: PreorderField :: f in AllFields
  {
    forall f: PreorderField
      ensures f in AllFields
    {
      match f
      case CustomerNameField =>
      case PhoneNumberField =>
      case InstagramField =>
      case ProductNameField =>
      case ProductImageField =>
      case SizeField =>
    }
  }

  function Errors(form: PreorderSubmission): (r: set<PreorderField>)
    ensures forall f :: f in r <==> Fails(form, f)
  {
    EveryFieldListed();
    set f | f in AllFields && Fails(form, f)
  }

  /** The record stored for a valid form: an empty instagram handle is stored as none. */
  function Record(form: PreorderSubmission): (r: Preorder)
    requires forall f :: !Fails(form, f)
    ensures r.status == PendingStatus
    ensures r.instagram.None? <==> form.instagram == Present("")
    ensures r.instagram.Some? ==> Present(r.instagram.value) == form.instagram
    ensures Present(r.customerName) == form.customerName && Present(r.phoneNumber) == form.phoneNumber
    ensures Present(r.productName) == form.productName && Present(r.productImage) == form.productImage
    ensures Present(r.size) == form.size
  {
    assert !Fails(form, CustomerNameField) && !Fails(form, PhoneNumberField) && !Fails(form, InstagramField);
    assert !Fails(form, ProductNameField) && !Fails(form, ProductImageField) && !Fails(form, SizeField);
    Preorder(form.customerName.text, form.phoneNumber.text,
             if form.instagram.text == "" then None else Some(form.instagram.text),
             form.productName.text, form.productImage.text, form.size.text, PendingStatus)
  }

  datatype PreorderState = PreorderFieldErrors(fields: set<PreorderField>, message: string)
                         | PreorderFailed(message: string)
                         | PreorderCreated

  datatype Creation = Creation(preorders: map<string, Preorder>, result: PreorderState)

  /** `createPreorder`. `newId` is the id the database assigns; one already in use makes the
      insert fail. */
  function CreateSpec(preorders: map<string, Preorder>, form: PreorderSubmission, newId: string, insertFails: bool): Creation {
    var errors := Errors(form);
    if errors != {} then Creation(preorders, PreorderFieldErrors(errors, FieldErrorMessage))
    else if insertFails || newId in preorders then Creation(preorders, PreorderFailed(DatabaseErrorMessage))
    else Creation(preorders[newId := Record(form)], PreorderCreated)
  }

  method CreatePreorder(db: Database, form: PreorderSubmission, newId: string, insertFails: bool)
    returns (result: PreorderState)
    modifies db
    ensures Creation(db.preorders, result) == CreateSpec(old(db.preorders), form, newId, insertFails)
    ensures db.products == old(db.products) && db.sizes == old(db.sizes)
    ensures db.categories == old(db.categories) && db.orders == old(db.orders)
  {
    var errors := Errors(form);
    if errors != {} {
      return PreorderFieldErrors(errors, FieldErrorMessage);
    }
    if insertFails || newId in db.preorders {
      return PreorderFailed(DatabaseErrorMessage);
    }
    db.preorders := db.preorders[newId := Record(form)];
    result := PreorderCreated;
  }

  /** A preorder is created exactly when every field passes and the insert goes through; it is
      then the one new record, pending, and nothing else changes. A rejected form names exactly
      its failing fields. */
  lemma CreateAddsOnePending(preorders: map<string, Preorder>, form: PreorderSubmission, newId: string, insertFails: bool)
    ensures var c := CreateSpec(preorders, form, newId, insertFails);
            && (c.result == PreorderCreated <==> (forall f :: !Fails(form, f)) && !insertFails && newId !in preorders)
            && (c.result == PreorderCreated ==>
                  c.preorders.Keys == preorders.Keys + {newId}
                  && c.preorders[newId].status == PendingStatus
                  && (forall id :: id in preorders ==> c.preorders[id] == preorders[id]))
            && (c.result != PreorderCreated ==> c.preorders == preorders)
            && (c.result.PreorderFieldErrors? ==> forall f :: f in c.result.fields <==> Fails(form, f))
  {
    var c := CreateSpec(preorders, form, newId, insertFails);
    if exists f :: Fails(form, f) {
      var f :| Fails(form, f);
      assert f in Errors(form);
    }
  }
}
