/**
  Creating a product from the admin form: validation, finding or creating the "Sneakers"
  category, and inserting the product together with its size rows.
 */
module CreateProductAction {
  import opened Wrappers
  import opened Store
  import opened ProductSchema

  const FieldErrorMessage := "Missing Fields. Failed to Create Product."
  const DatabaseErrorMessage := "Database Error: Failed to create product"
  const DefaultCategory := "Sneakers"

  /** `category.findFirst({ where: { name } })`: the position of the first category with that name. */
  function FindCategory(categories: seq<Category>, name: string): (r: Option<nat>)
    ensures r.Some? ==> r.value < |categories| && categories[r.value].name == name
    ensures r.Some? ==> forall j :: 0 <= j < r.value ==> categories[j].name != name
    ensures r.None? <==> forall j :: 0 <= j < |categories| ==> categories[j].name != name
  {
    if categories == [] then None
    else if categories[0].name == name then Some(0)
    else
      var rest := FindCategory(categories[1..], name);
      assert forall j :: 1 <= j < |categories| ==> categories[j] == categories[1..][j - 1];
      if rest.Some? then Some(rest.value + 1) else None
  }

  /** The database writes that can fail: creating the category, and creating the product with
      its sizes (one nested write, so it stores all of it or none of it). */
  datatype CreateFaults = CreateFaults(categoryInsertFails: bool, productInsertFails: bool)

  /** The stored record: the price in cents, no brand, not archived. */
  function NewProduct(data: ProductData, categoryId: string): (r: Product)
    ensures r.brand == "" && !r.isArchived && r.categoryId == categoryId
    ensures r.name == data.name && r.description == data.description && r.images == data.images
    ensures r.gender == data.gender && r.productType == data.productType && r.isFeatured == data.isFeatured
    ensures r.price == PriceCents(data.price)
  {
    Product(data.name, data.description, PriceCents(data.price), "", data.gender, data.productType,
            data.images, data.isFeatured, false, categoryId)
  }

  datatype Created = Created(products: map<string, Product>, sizes: map<SizeKey, int>,
                             categories: seq<Category>, result: FormState)

  /** The database part of `createProduct` for validated data. A new category is created only
      when none is named "Sneakers"; that category stays even when the product insert then
      fails. `newProductId` is the id the database assigns; one already in use makes the
      insert fail. */
  function Insert(products: map<string, Product>, sizes: map<SizeKey, int>, categories: seq<Category>,
                  data: ProductData, newCategoryId: string, newProductId: string, faults: CreateFaults): Created
  {
    if FindCategory(categories, DefaultCategory).None? && faults.categoryInsertFails then
      Created(products, sizes, categories, Failed(DatabaseErrorMessage))
    else
      var categories' := WithSneakers(categories, newCategoryId);
      if faults.productInsertFails || newProductId in products then
        Created(products, sizes, categories', Failed(DatabaseErrorMessage))
      else
        Created(products[newProductId := NewProduct(data, SneakersId(categories, newCategoryId))],
                sizes + SizeRows(newProductId, data.sizes),
                categories', Redirected(ProductListPath))
  }

  /** The categories once "Sneakers" exists: unchanged when found, else with it appended. */
  function WithSneakers(categories: seq<Category>, newCategoryId: string): seq<Category> {
    if FindCategory(categories, DefaultCategory).Some? then categories
    else categories + [Category(newCategoryId, DefaultCategory)]
  }

  /** The id of the "Sneakers" category: the first one found, else the new one. */
  function SneakersId(categories: seq<Category>, newCategoryId: string): string {
    match FindCategory(categories, DefaultCategory)
    case Some(j) => categories[j].id
    case None => newCategoryId
  }

  /** `SneakersId` names a category called "Sneakers" among `WithSneakers`. */
  lemma SneakersIdIsNamed(categories: seq<Category>, newCategoryId: string)
    ensures var cs := WithSneakers(categories, newCategoryId);
            exists j :: 0 <= j < |cs| && cs[j].name == DefaultCategory && cs[j].id == SneakersId(categories, newCategoryId)
  {
    var cs := WithSneakers(categories, newCategoryId);
    var found := FindCategory(categories, DefaultCategory);
    var j := if found.Some? then found.value else |categories|;
    assert cs[j].name == DefaultCategory && cs[j].id == SneakersId(categories, newCategoryId);
  }

  /** `createProduct`: validation, then the writes. */
  function CreateSpec(products: map<string, Product>, sizes: map<SizeKey, int>, categories: seq<Category>,
                      form: ProductSubmission, newCategoryId: string, newProductId: string,
                      faults: CreateFaults): Created
  {
    match Validate(form)
    case Invalid(fields) => Created(products, sizes, categories, FieldErrors(fields, FieldErrorMessage))
    case Valid(data) => Insert(products, sizes, categories, data, newCategoryId, newProductId, faults)
  }

  method CreateProduct(db: Database, form: ProductSubmission, newCategoryId: string, newProductId: string,
                       faults: CreateFaults) returns (result: FormState)
    modifies db
    ensures Created(db.products, db.sizes, db.categories, result)
            == CreateSpec(old(db.products), old(db.sizes), old(db.categories), form, newCategoryId, newProductId, faults)
    ensures db.orders == old(db.orders) && db.preorders == old(db.preorders)
  {
    var validated := Validate(form);
    if validated.Invalid? {
      return FieldErrors(validated.fields, FieldErrorMessage);
    }
    var data := validated.data;
    ghost var spec := Insert(db.products, db.sizes, db.categories, data, newCategoryId, newProductId, faults);
    var found := FindCategory(db.categories, DefaultCategory);
    var categoryId;
    if found.Some? {
      categoryId := db.categories[found.value].id;
    } else {
      if faults.categoryInsertFails {
        assert spec == Created(db.products, db.sizes, db.categories, Failed(DatabaseErrorMessage));
        return Failed(DatabaseErrorMessage);
      }
      db.categories := db.categories + [Category(newCategoryId, DefaultCategory)];
      categoryId := newCategoryId;
    }
    assert spec.categories == db.categories;
    if faults.productInsertFails || newProductId in db.products {
      return Failed(DatabaseErrorMessage);
    }
    db.products := db.products[newProductId := NewProduct(data, categoryId)];
    db.sizes := db.sizes + SizeRows(newProductId, data.sizes);
    result := Redirected(ProductListPath);
    assert spec == Created(db.products, db.sizes, db.categories, result);
  }

  /** A form that fails validation writes nothing and names exactly the failing fields. */
  lemma InvalidFormWritesNothing(products: map<string, Product>, sizes: map<SizeKey, int>, categories: seq<Category>,
                                 form: ProductSubmission, newCategoryId: string, newProductId: string, faults: CreateFaults)
    requires exists f :: Fails(form, f)
    ensures var c := CreateSpec(products, sizes, categories, form, newCategoryId, newProductId, faults);
            && c.products == products && c.sizes == sizes && c.categories == categories
            && c.result.FieldErrors? && c.result.message == FieldErrorMessage
            && forall f :: f in c.result.fields <==> Fails(form, f)
  {
  }

  /** A successful insert adds exactly one product, live and in a category named "Sneakers",
      with one size row per submitted value and no other row or product touched. */
  lemma InsertedProductIsListed(products: map<string, Product>, sizes: map<SizeKey, int>, categories: seq<Category>,
                                data: ProductData, newCategoryId: string, newProductId: string, faults: CreateFaults)
    requires RowsBelongToProducts(products, sizes)
    requires Insert(products, sizes, categories, data, newCategoryId, newProductId, faults).result.Redirected?
    ensures var c := Insert(products, sizes, categories, data, newCategoryId, newProductId, faults);
            && c.result == Redirected(ProductListPath)
            && c.products.Keys == products.Keys + {newProductId} && newProductId !in products
            && (forall id :: id in products ==> c.products[id] == products[id])
            && c.products[newProductId] == NewProduct(data, c.products[newProductId].categoryId)
            && (exists j :: 0 <= j < |c.categories| && c.categories[j].name == DefaultCategory
                            && c.categories[j].id == c.products[newProductId].categoryId)
            && RowsBelongToProducts(c.products, c.sizes)
            && (forall k: SizeKey :: k.productId != newProductId ==> (k in c.sizes <==> k in sizes) && (k in sizes ==> c.sizes[k] == sizes[k]))
            && (forall v :: SizeKey(newProductId, v) in c.sizes <==> exists i :: 0 <= i < |data.sizes| && data.sizes[i].value == v)
  {
    var c := Insert(products, sizes, categories, data, newCategoryId, newProductId, faults);
    var p := NewProduct(data, SneakersId(categories, newCategoryId));
    assert c.products == products[newProductId := p] && c.sizes == sizes + SizeRows(newProductId, data.sizes);
    assert c.categories == WithSneakers(categories, newCategoryId);
    SneakersIdIsNamed(categories, newCategoryId);
    NewRowsAdded(products, sizes, newProductId, p, data.sizes);
  }

  /** Adding a product under a fresh id with its submitted rows keeps every row tied to a
      product, leaves other products' rows alone, and gives the new one a row per value. */
  lemma NewRowsAdded(products: map<string, Product>, sizes: map<SizeKey, int>, newProductId: string,
                     p: Product, list: seq<SizeInput>)
    requires RowsBelongToProducts(products, sizes) && newProductId !in products
    ensures var rows := sizes + SizeRows(newProductId, list);
            && RowsBelongToProducts(products[newProductId := p], rows)
            && (forall k: SizeKey :: k.productId != newProductId ==> (k in rows <==> k in sizes) && (k in sizes ==> rows[k] == sizes[k]))
            && (forall v :: SizeKey(newProductId, v) in rows <==> exists i :: 0 <= i < |list| && list[i].value == v)
  {
    var rows := sizes + SizeRows(newProductId, list);
    forall v
      ensures SizeKey(newProductId, v) in rows <==> exists i :: 0 <= i < |list| && list[i].value == v
    {
      assert SizeKey(newProductId, v) !in sizes;
    }
  }

  /** A valid form that is stored adds exactly that product and its sizes; see
      `InsertedProductIsListed` for what the insert does. */
  lemma CreatedProductIsListed(products: map<string, Product>, sizes: map<SizeKey, int>, categories: seq<Category>,
                               form: ProductSubmission, newCategoryId: string, newProductId: string, faults: CreateFaults)
    requires CreateSpec(products, sizes, categories, form, newCategoryId, newProductId, faults).result.Redirected?
    ensures forall f :: !Fails(form, f)
    ensures CreateSpec(products, sizes, categories, form, newCategoryId, newProductId, faults)
            == Insert(products, sizes, categories, Validate(form).data, newCategoryId, newProductId, faults)
  {
  }

  /** "Sneakers" is created at most once: an existing one is reused, and otherwise exactly one
      is appended, which stays even when the product insert fails. */
  lemma CategoryFoundOrAdded(products: map<string, Product>, sizes: map<SizeKey, int>, categories: seq<Category>,
                             data: ProductData, newCategoryId: string, newProductId: string, faults: CreateFaults)
    ensures var c := Insert(products, sizes, categories, data, newCategoryId, newProductId, faults);
            && (FindCategory(categories, DefaultCategory).Some? ==> c.categories == categories)
            && (FindCategory(categories, DefaultCategory).None? && !faults.categoryInsertFails ==>
                  c.categories == categories + [Category(newCategoryId, DefaultCategory)])
            && (c.categories != categories || FindCategory(c.categories, DefaultCategory).Some? || c.result.Failed?)
  {
  }
}
