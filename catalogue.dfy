/**
  The storefront's and the admin list's product query: the filter built from the page's query
  parameters, the products it selects, the collection label and the page title.
 */
module Catalogue {
  import opened Wrappers
  import opened Text
  import opened Store

  /** The page's query parameters, each as the single string it was given, if any. */
  datatype PageParams = PageParams(
    gender: Option<string>,
    productType: Option<string>,
    size: Option<string>,
    search: Option<string>,
    categoryId: Option<string>)

  /** The product filter; archived products are always excluded. */
  datatype Where = Where(
    gender: Option<Gender>,
    productType: Option<ProductType>,
    size: Option<string>,
    nameContains: Option<string>,
    categoryId: Option<string>)

  /** A truthy parameter. */
  predicate Given(v: Option<string>) {
    v.Some? && v.value != ""
  }

  /** What the filter means for one stored product: not archived, in the requested gender and
      type when those are valid names, with a size row of the requested value, a name that
      contains the search text ignoring case, and in the requested category. */
  predicate Selected(sp: PageParams, id: string, p: Product, sizes: map<SizeKey, int>) {
    && !p.isArchived
    && (sp.gender.Some? && ParseGender(sp.gender.value).Some? ==> GenderName(p.gender) == sp.gender.value)
    && (sp.productType.Some? && ParseProductType(sp.productType.value).Some? ==> ProductTypeName(p.productType) == sp.productType.value)
    && (Given(sp.size) ==> SizeKey(id, sp.size.value) in sizes)
    && (Given(sp.search) ==> ContainsIgnoreCase(p.name, sp.search.value))
    && (Given(sp.categoryId) ==> p.categoryId == sp.categoryId.value)
  }

  /** How the database applies a built filter. */
  predicate Matches(w: Where, id: string, p: Product, sizes: map<SizeKey, int>) {
    && !p.isArchived
    && (w.gender.Some? ==> p.gender == w.gender.value)
    && (w.productType.Some? ==> p.productType == w.productType.value)
    && (w.size.Some? ==> SizeKey(id, w.size.value) in sizes)
    && (w.nameContains.Some? ==> ContainsIgnoreCase(p.name, w.nameContains.value))
    && (w.categoryId.Some? ==> p.categoryId == w.categoryId.value)
  }

  /** The `where` builder of the shop page and the admin product list: each condition is added
      only for a truthy parameter, and gender and type only for a known name. */
  method BuildWhere(sp: PageParams) returns (w: Where)
    ensures forall id, p, sizes :: Matches(w, id, p, sizes) <==> Selected(sp, id, p, sizes)
  {
    w := Where(None, None, None, None, None);
    if sp.gender.Some? && sp.gender.value != "" && ParseGender(sp.gender.value).Some? {
      w := w.(gender := ParseGender(sp.gender.value));
    }
    if sp.productType.Some? && sp.productType.value != "" && ParseProductType(sp.productType.value).Some? {
      w := w.(productType := ParseProductType(sp.productType.value));
    }
    if Given(sp.size) {
      w := w.(size := sp.size);
    }
    var search := sp.search.GetOr("");
    if search != "" {
      w := w.(nameContains := Some(search));
    }
    var categoryId := sp.categoryId.GetOr("");
    if categoryId != "" {
      w := w.(categoryId := Some(categoryId));
    }
  }

  /** The products a filter selects. */
  function Listing(products: map<string, Product>, sizes: map<SizeKey, int>, w: Where): (r: set<string>)
    ensures forall id :: id in r <==> id in products && Matches(w, id, products[id], sizes)
  {
    set id | id in products && Matches(w, id, products[id], sizes)
  }

  /** An unknown gender or type name filters nothing: the listing is the one without it. */
  lemma UnknownNamesIgnored(sp: PageParams, id: string, p: Product, sizes: map<SizeKey, int>)
    ensures sp.gender.Some? && ParseGender(sp.gender.value).None? ==>
              (Selected(sp, id, p, sizes) <==> Selected(sp.(gender := None), id, p, sizes))
    ensures sp.productType.Some? && ParseProductType(sp.productType.value).None? ==>
              (Selected(sp, id, p, sizes) <==> Selected(sp.(productType := None), id, p, sizes))
  {
  }

  /** Archived products are never listed, whatever the parameters. */
  lemma ArchivedNeverListed(products: map<string, Product>, sizes: map<SizeKey, int>, w: Where, id: string)
    requires id in products && products[id].isArchived
    ensures id !in Listing(products, sizes, w)
  {
  }

  /** The admin list: "No products found." when nothing matches, otherwise the matches. */
  datatype AdminView = NoProductsFound | ProductTable(ids: set<string>)

  function AdminViewOf(products: map<string, Product>, sizes: map<SizeKey, int>, w: Where): (r: AdminView)
    ensures r == NoProductsFound <==> forall id :: id in products ==> !Matches(w, id, products[id], sizes)
    ensures r.ProductTable? ==> r.ids == Listing(products, sizes, w) && r.ids != {}
  {
    var ids := Listing(products, sizes, w);
    if ids == {} then NoProductsFound
    else
      ProductTable(ids)
  }

  /** The collection label of each gender. */
  function CollectionLabel(g: Gender): string {
    match g
    case Men => "Men's Collection"
    case Women => "Women's Collection"
    case Kids => "Kids' Collection"
    case Unisex => "Unisex Collection"
  }

  /** `getGenderLabel`. */
  function GenderLabel(gender: Option<string>): (r: string)
    ensures r == "All Products" <==> gender.None? || ParseGender(gender.value).None?
  {
    if gender.None? then "All Products"
    else match ParseGender(gender.value)
      case Some(g) => CollectionLabel(g)
      case None => "All Products"
  }

  datatype PageMetadata = PageMetadata(title: string, description: string)

  const DefaultTitle := "Shop All Products"
  const DefaultDescription := "Browse our complete collection of sneakers, streetwear, and accessories."

  /** The fixed title of each gender's page. */
  function GenderTitle(g: Gender): string {
    match g
    case Men => "Men's Sneakers & Clothing"
    case Women => "Women's Collection"
    case Kids => "Kids' Collection"
    case Unisex => "Unisex Collection"
  }

  /** The fixed description of each gender's page. */
  function GenderDescription(g: Gender): string {
    match g
    case Men => "Shop the latest men's sneakers, streetwear, and accessories. Exclusive drops and limited editions."
    case Women => "Discover women's sneakers, streetwear, and fashion-forward accessories. Latest trends and exclusive releases."
    case Kids => "Find the perfect sneakers and streetwear for kids. Comfortable, stylish, and built to last."
    case Unisex => "Browse our unisex sneakers and streetwear collection. Perfect for everyone."
  }

  /** The fixed title and description of each gender's page. */
  function GenderMetadata(g: Gender): PageMetadata {
    PageMetadata(GenderTitle(g), GenderDescription(g))
  }

  /** `generateMetadata`: the default title and description, replaced for a known gender (the
      chain of comparisons with the four names is the enum check `ParseGender` followed by the
      table `GenderMetadata`). */
  method Metadata(gender: Option<string>) returns (m: PageMetadata)
    ensures gender.Some? && ParseGender(gender.value).Some? ==> m == GenderMetadata(ParseGender(gender.value).value)
    ensures gender.None? || ParseGender(gender.value).None? ==> m == PageMetadata(DefaultTitle, DefaultDescription)
  {
    var title := DefaultTitle;
    var description := DefaultDescription;
    var known := if gender.Some? then ParseGender(gender.value) else None;
    if known.Some? {
      title, description := GenderMetadata(known.value).title, GenderMetadata(known.value).description;
    }
    m := PageMetadata(title, description);
  }

  /** Every title but men's is the collection label. */
  lemma TitleIsLabel(g: Gender)
    requires g != Men
    ensures GenderTitle(g) == CollectionLabel(g)
  {
  }

  /** Men's page title is not its collection label. */
  lemma MenTitleDiffers()
    ensures GenderTitle(Men) != CollectionLabel(Men)
  {
  }

  /** The page title and the collection label agree for every gender but men's, and both fall
      back together. */
  lemma TitleAndLabelAgree(gender: Option<string>)
    ensures gender.Some? && ParseGender(gender.value).Some? && ParseGender(gender.value).value != Men ==>
              GenderMetadata(ParseGender(gender.value).value).title == GenderLabel(gender)
    ensures gender.Some? && ParseGender(gender.value) == Some(Men) ==>
              GenderMetadata(Men).title != GenderLabel(gender)
  {
    if gender.Some? && ParseGender(gender.value).Some? {
      var g := ParseGender(gender.value).value;
      assert GenderLabel(gender) == CollectionLabel(g);
      if g == Men {
        MenTitleDiffers();
      } else {
        TitleIsLabel(g);
      }
    }
  }
}
