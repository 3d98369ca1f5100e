/**
  Editing a product from the admin form: validation, then one transaction that rewrites the
  product's fields and replaces its size rows with the submitted list.
 */
module UpdateProductAction {
  import opened Store
  import opened ProductSchema

  const FieldErrorMessage := "Missing Fields. Failed to Update Product."
  const DatabaseErrorMessage := "Database Error: Failed to update product"

  /** The record after the edit: every form field rewritten, the brand cleared, the archive flag
      and the category kept. */
  function Revised(p: Product, data: ProductData): (r: Product)
    ensures r.isArchived == p.isArchived && r.categoryId == p.categoryId && r.brand == ""
    ensures r.name == data.name && r.description == data.description && r.price == PriceCents(data.price)
    ensures r.gender == data.gender && r.productType == data.productType
    ensures r.images == data.images && r.isFeatured == data.isFeatured
  {
    p.(name := data.name, description := data.description, price := PriceCents(data.price), brand := "",
       gender := data.gender, productType := data.productType, images := data.images, isFeatured := data.isFeatured)
  }

  /** `size.deleteMany({ where: { productId } })`. */
  function RowsOfOthers(sizes: map<SizeKey, int>, productId: string): (r: map<SizeKey, int>)
    ensures forall k :: k in r <==> k in sizes && k.productId != productId
    ensures forall k :: k in r ==> r[k] == sizes[k]
  {
    map k | k in sizes && k.productId != productId :: sizes[k]
  }

  /** The rows after the transaction: the product's old rows gone, the submitted ones added. */
  function ReplaceSizes(sizes: map<SizeKey, int>, productId: string, list: seq<SizeInput>): map<SizeKey, int> {
    RowsOfOthers(sizes, productId) + SizeRows(productId, list)
  }

  datatype Updated = Updated(products: map<string, Product>, sizes: map<SizeKey, int>, result: FormState)

  /** The transaction for validated data. Updating an id with no record throws inside it,
      and then it writes nothing, like any other failure of it. */
  function Apply(products: map<string, Product>, sizes: map<SizeKey, int>, productId: string,
                 data: ProductData, transactionFails: bool): Updated
  {
    if transactionFails || productId !in products then
      Updated(products, sizes, Failed(DatabaseErrorMessage))
    else
      Updated(products[productId := Revised(products[productId], data)],
              ReplaceSizes(sizes, productId, data.sizes),
              Redirected(ProductListPath))
  }

  /** `updateProduct`: validation, then the transaction. */
  function UpdateSpec(products: map<string, Product>, sizes: map<SizeKey, int>, productId: string,
                      form: ProductSubmission, transactionFails: bool): Updated
  {
    match Validate(form)
    case Invalid(fields) => Updated(products, sizes, FieldErrors(fields, FieldErrorMessage))
    case Valid(data) => Apply(products, sizes, productId, data, transactionFails)
  }

  method UpdateProduct(db: Database, productId: string, form: ProductSubmission, transactionFails: bool)
    returns (result: FormState)
    modifies db
    ensures Updated(db.products, db.sizes, result) == UpdateSpec(old(db.products), old(db.sizes), productId, form, transactionFails)
    ensures db.categories == old(db.categories) && db.orders == old(db.orders) && db.preorders == old(db.preorders)
  {
    var validated := Validate(form);
    if validated.Invalid? {
      return FieldErrors(validated.fields, FieldErrorMessage);
    }
    result := RunTransaction(db, productId, validated.data, transactionFails);
  }

  /** `db.$transaction(...)`: the product update, `deleteMany` of its rows, and `createMany`
      of the submitted ones when there are any. */
  method RunTransaction(db: Database, productId: string, data: ProductData, transactionFails: bool)
    returns (result: FormState)
    modifies db
    ensures Updated(db.products, db.sizes, result) == Apply(old(db.products), old(db.sizes), productId, data, transactionFails)
    ensures db.categories == old(db.categories) && db.orders == old(db.orders) && db.preorders == old(db.preorders)
  {
    if transactionFails || productId !in db.products {
      return Failed(DatabaseErrorMessage);
    }
    db.products := db.products[productId := Revised(db.products[productId], data)];
    db.sizes := RowsOfOthers(db.sizes, productId);
    if |data.sizes| > 0 {
      db.sizes := db.sizes + SizeRows(productId, data.sizes);
    } else {
      assert db.sizes + SizeRows(productId, data.sizes) == db.sizes;
    }
    result := Redirected(ProductListPath);
  }

  /** After the replacement the product's rows are exactly the submitted values, each with its
      submitted quantity when the values are distinct; an empty list leaves it no rows; rows of
      other products are untouched. */
  lemma ReplacedRowsAreSubmitted(sizes: map<SizeKey, int>, productId: string, list: seq<SizeInput>)
    ensures var r := ReplaceSizes(sizes, productId, list);
            && (forall v :: SizeKey(productId, v) in r <==> exists i :: 0 <= i < |list| && list[i].value == v)
            && (list == [] ==> forall k :: k in r ==> k.productId != productId)
            && (forall k: SizeKey :: k.productId != productId ==> (k in r <==> k in sizes) && (k in sizes ==> r[k] == sizes[k]))
    ensures (forall i, j :: 0 <= i < j < |list| ==> list[i].value != list[j].value) ==>
              forall i :: 0 <= i < |list| ==> ReplaceSizes(sizes, productId, list)[SizeKey(productId, list[i].value)] == list[i].quantity
  {
    if forall i, j :: 0 <= i < j < |list| ==> list[i].value != list[j].value {
      SizeRowsExact(productId, list);
    }
  }

  /** Replacing twice with the same list is replacing once. */
  lemma ReplaceSizesIdempotent(sizes: map<SizeKey, int>, productId: string, list: seq<SizeInput>)
    ensures ReplaceSizes(ReplaceSizes(sizes, productId, list), productId, list) == ReplaceSizes(sizes, productId, list)
  {
    var once := ReplaceSizes(sizes, productId, list);
    assert RowsOfOthers(once, productId) == RowsOfOthers(sizes, productId);
  }

  /** A successful update keeps the set of products, changes only the edited one (its archive
      flag and category stay), and keeps every size row tied to a stored product. */
  lemma UpdateKeepsOthers(products: map<string, Product>, sizes: map<SizeKey, int>, productId: string,
                          form: ProductSubmission, transactionFails: bool)
    requires RowsBelongToProducts(products, sizes)
    ensures var u := UpdateSpec(products, sizes, productId, form, transactionFails);
            && u.products.Keys == products.Keys
            && (forall id :: id in products && id != productId ==> u.products[id] == products[id])
            && (productId in products ==> u.products[productId].isArchived == products[productId].isArchived
                                          && u.products[productId].categoryId == products[productId].categoryId)
            && RowsBelongToProducts(u.products, u.sizes)
            && (!u.result.Redirected? ==> u.products == products && u.sizes == sizes)
  {
    match Validate(form)
    case Invalid(_) =>
    case Valid(data) => ApplyKeepsOthers(products, sizes, productId, data, transactionFails);
  }

  /** What `UpdateKeepsOthers` states, for the transaction on validated data. */
  lemma ApplyKeepsOthers(products: map<string, Product>, sizes: map<SizeKey, int>, productId: string,
                         data: ProductData, transactionFails: bool)
    requires RowsBelongToProducts(products, sizes)
    ensures var u := Apply(products, sizes, productId, data, transactionFails);
            && u.products.Keys == products.Keys
            && (forall id :: id in products && id != productId ==> u.products[id] == products[id])
            && (productId in products ==> u.products[productId].isArchived == products[productId].isArchived
                                          && u.products[productId].categoryId == products[productId].categoryId)
            && RowsBelongToProducts(u.products, u.sizes)
            && (!u.result.Redirected? ==> u.products == products && u.sizes == sizes)
  {
    if !transactionFails && productId in products {
      ReplacedRowsBelong(products, sizes, productId, data.sizes);
    }
  }

  /** Replacing an existing product's rows keeps every row tied to a stored product. */
  lemma ReplacedRowsBelong(products: map<string, Product>, sizes: map<SizeKey, int>, productId: string, list: seq<SizeInput>)
    requires RowsBelongToProducts(products, sizes) && productId in products
    ensures RowsBelongToProducts(products, ReplaceSizes(sizes, productId, list))
  {
  }

  /** Applying the same validated data twice leaves the database as applying it once. */
  lemma ApplyIsIdempotent(products: map<string, Product>, sizes: map<SizeKey, int>, productId: string, data: ProductData)
    ensures var once := Apply(products, sizes, productId, data, false);
            Apply(once.products, once.sizes, productId, data, false) == once
  {
    if productId in products {
      ReplaceSizesIdempotent(sizes, productId, data.sizes);
      var p := products[productId];
      assert Revised(Revised(p, data), data) == Revised(p, data);
    }
  }

  /** Submitting the same form twice leaves the database as one submission does. */
  lemma UpdateIsIdempotent(products: map<string, Product>, sizes: map<SizeKey, int>, productId: string,
                           form: ProductSubmission)
    ensures var once := UpdateSpec(products, sizes, productId, form, false);
            UpdateSpec(once.products, once.sizes, productId, form, false) == once
  {
    if Validate(form).Valid? {
      ApplyIsIdempotent(products, sizes, productId, Validate(form).data);
    }
  }
}
