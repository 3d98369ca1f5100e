/**
  The document database as values: products, size rows, categories, orders and preorders.
  Size rows are keyed by (productId, value), the pair every query in the application
  looks them up by. Creation ids are supplied by the caller (the datastore picks them).
 */
module Store {
  import opened Wrappers

  datatype Gender = Men | Women | Kids | Unisex
  datatype ProductType = Shoes | Clothing | Accessories

  function GenderName(g: Gender): string {
    match g
    case Men => "MEN"
    case Women => "WOMEN"
    case Kids => "KIDS"
    case Unisex => "UNISEX"
  }

  /** The enum check `gender === "MEN" || ... || gender === "UNISEX"`. */
  function ParseGender(s: string): (r: Option<Gender>)
    ensures r.Some? ==> GenderName(r.value) == s
    ensures forall g :: GenderName(g) == s ==> r == Some(g)
  {
    if s == "MEN" then Some(Men)
    else if s == "WOMEN" then Some(Women)
    else if s == "KIDS" then Some(Kids)
    else if s == "UNISEX" then Some(Unisex)
    else None
  }

  function ProductTypeName(t: ProductType): string {
    match t
    case Shoes => "SHOES"
    case Clothing => "CLOTHING"
    case Accessories => "ACCESSORIES"
  }

  /** The enum check `type === "SHOES" || type === "CLOTHING" || type === "ACCESSORIES"`. */
  function ParseProductType(s: string): (r: Option<ProductType>)
    ensures r.Some? ==> ProductTypeName(r.value) == s
    ensures forall t :: ProductTypeName(t) == s ==> r == Some(t)
  {
    if s == "SHOES" then Some(Shoes)
    else if s == "CLOTHING" then Some(Clothing)
    else if s == "ACCESSORIES" then Some(Accessories)
    else None
  }

  /** A product; `price` is in cents. */
  datatype Product = Product(
    name: string,
    description: string,
    price: int,
    brand: string,
    gender: Gender,
    productType: ProductType,
    images: seq<string>,
    isFeatured: bool,
    isArchived: bool,
    categoryId: string)

  /** The lookup key of a size row. */
  datatype SizeKey = SizeKey(productId: string, value: string)

  /** Every size row names a stored product (the `productId` foreign key). */
  predicate RowsBelongToProducts(products: map<string, Product>, sizes: map<SizeKey, int>) {
    forall k :: k in sizes ==> k.productId in products
  }

  datatype Category = Category(id: string, name: string)

  /** An order line: the product it references, the quantity and the chosen size label. */
  datatype OrderItem = OrderItem(productId: string, quantity: int, size: string)

  /** An order. The customer fields are "" until the payment webhook fills them in. */
  datatype Order = Order(
    isPaid: bool,
    items: seq<OrderItem>,
    customerName: string,
    customerEmail: string,
    phone: string,
    address: string,
    deliveryMethod: string)

  /** An order item together with its product, as the admin views and the e-mail load it. */
  datatype OrderLine = OrderLine(item: OrderItem, product: Product)

  /** `item.product.price * item.quantity`, the amount every order view shows for a line. */
  function LineAmount(line: OrderLine): int {
    line.product.price * line.item.quantity
  }

  datatype Preorder = Preorder(
    customerName: string,
    phoneNumber: string,
    instagram: Option<string>,
    productName: string,
    productImage: string,
    size: string,
    status: string)

  /** The database client: every server action and the webhook read and write these collections. */
  class Database {
    var products: map<string, Product>
    var sizes: map<SizeKey, int>
    var categories: seq<Category>
    var orders: map<string, Order>
    var preorders: map<string, Preorder>

    constructor (products: map<string, Product>, sizes: map<SizeKey, int>, categories: seq<Category>,
                 orders: map<string, Order>, preorders: map<string, Preorder>)
      ensures this.products == products && this.sizes == sizes && this.categories == categories
      ensures this.orders == orders && this.preorders == preorders
    {
      this.products := products;
      this.sizes := sizes;
      this.categories := categories;
      this.orders := orders;
      this.preorders := preorders;
    }
  }
}
