# MyPlug store core in Dafny

A model of the core of the MyPlug sneaker store. The store is a Next.js application backed by a
document database and a card-payment provider. The model covers its money path and its admin
data paths:

- **The client cart store.** Lines are keyed by (product id, size). The model covers adding with
  quantity normalisation and stock caps, setting a quantity, removing and clearing lines, and
  the delivery method.
- **The product page's purchase panel.** This is the initial size, the add-to-cart decision and
  the quantity stepper.
- **The checkout server action.** It validates stock against the size rows, builds the shipping
  table, inserts the pending order and builds the payment-session request with its compact
  cart metadata.
- **The payment webhook.** It gates on the signature, marks the order paid with its two fallback
  writes, decrements stock line by line, acknowledges idempotently and builds the
  confirmation-e-mail totals.
- **The money summaries.** These are the cart page, the admin orders list, the order-detail
  modal and the e-mail receipt.
- **The admin data actions.** These create, update and soft-delete a product, create a preorder
  and change a preorder's status. The actions validate the submitted form with the schema's
  exact rules.
- **The admin product form's client state.**
- **The catalogue.** This covers the product filter built from the page's query parameters, the
  admin empty state, the collection label and the page title.
- **Query-string editing.** This covers the size sidebar, the search/category bar and the admin
  toast listener, written over a model of the browser's `URLSearchParams`.
- **The testimonial star rating.**

Amounts are integer cents. A product's stored `price` is read in cents, and the UI fee tables,
written in whole dollars, are converted with `Money.Cents`. JavaScript numbers are `Json.Num`:
a finite real or a non-finite value. The database is the class `Store.Database`, whose fields
are maps that the actions' methods reassign. Each action is also given as a function on the old
maps, and the properties are lemmas about those functions. The following are parameters, not
computations:

- ids the datastore assigns;
- database faults;
- the signature check's verdict;
- the payment provider's reply;
- whether the mailer is configured.

Where the code and the written description of the system disagree, the model follows the code:

- A redelivered `checkout.session.completed` event for an order that is already paid writes
  nothing. It still dispatches the confirmation e-mail again, because the e-mail step sits
  outside the `isPaid` guard (`src/app/api/webhooks/stripe/route.ts:210-236`). So
  `Webhook.RedeliveryChangesNothing` promises no database change, not "no second e-mail".
- The product schema's `.default("MEN")`, `.default("SHOES")` and `.default([])` never apply.
  `formData.get` yields `null` for a missing field, and zod applies defaults only to
  `undefined`. A form without `gender` or `productType` is therefore rejected, not defaulted
  (`ProductSchema.Validate`). Likewise a missing `instagram` on a preorder fails
  `.optional()` (`CreatePreorderAction.Errors`).

## Model

| member | source | states |
|---|---|---|
| Store.ParseGender | src/app/shop/page.tsx:77 | the gender enum check accepts exactly the four names MEN, WOMEN, KIDS, UNISEX, each as the gender of that name |
| Store.ParseProductType | src/app/shop/page.tsx:80 | the type enum check accepts exactly SHOES, CLOTHING, ACCESSORIES, each as the type of that name |
| Cart.AddQuantity | src/store/use-cart.ts:35 | `addItem`'s quantity is at least 1, is the floor of a finite quantity of at least 1, and is 1 for a non-finite quantity or one below 2 |
| Cart.SetQuantityValue | src/store/use-cart.ts:67 | `setQuantity`'s quantity is at least 0, the floor of a finite non-negative quantity, and 0 for a non-finite quantity or one below 1 |
| Cart.CapOf | src/store/use-cart.ts:43 | a `maxAvailable` argument gives a non-negative cap, the floor of a non-negative argument, and 0 for an argument below 1 |
| Cart.Capped | src/store/use-cart.ts:44 | a capped quantity exceeds neither the requested quantity nor the cap, and is one of the two |
| Cart.FindLine | src/store/use-cart.ts:38-40 | `find` returns the first line with that product id and size, and none exactly when no line has them |
| Cart.Without | src/store/use-cart.ts:86-92 | the `removeItem` filter keeps exactly the lines that are not the (id, size) line, and no more |
| Cart.UpdateLines | src/store/use-cart.ts:48-52 | the `map` relabels every (id, size) line with the new quantity and cap and leaves every other line as it was, position by position |
| Cart.SetQuantitySpec | src/store/use-cart.ts:66-73 | a quantity that is not finite or floors below 1 removes the line |
| Cart.RemoveKeepsOthers | src/store/use-cart.ts:86-92 | with unique lines, `removeItem` removes exactly the one matching line and keeps the others in order, and changes nothing when no line matches |
| Cart.AddItemPreservesValid | src/store/use-cart.ts:34-61 | `addItem` keeps one line per (id, size) and every capped line within its non-negative cap |
| Cart.AddItemExistingLine | src/store/use-cart.ts:42-53 | adding to an existing line raises its quantity by the normalised amount up to the new cap, or else the line's own cap; the cap is recorded and the other lines are unchanged |
| Cart.AddItemNewLine | src/store/use-cart.ts:54-61 | adding a new (id, size) appends exactly one line holding the product; under a cap it holds min(normalised quantity, cap) units and records the cap, and without one it holds the normalised quantity and no cap |
| Cart.AddThenRemove | src/store/use-cart.ts:34-92 | adding a new line and then removing it gives back the original cart |
| Cart.SetQuantityPreservesValid | src/store/use-cart.ts:66-84 | `setQuantity` keeps one line per (id, size) and every capped line within its cap |
| Cart.SetQuantityMatched | src/store/use-cart.ts:75-83 | a positive `setQuantity` sets the matching line to the quantity capped by the line's own cap and changes nothing else; with no matching line it changes nothing |
| Cart.CartStore.constructor | src/store/use-cart.ts:31-32 | the store starts with no lines and standard delivery |
| Cart.CartStore.Find | src/store/use-cart.ts:38-40 | the linear scan returns the first matching index, as `FindLine` specifies |
| Cart.CartStore.Update | src/store/use-cart.ts:48-52 | the rebuild loop produces exactly `UpdateLines` of the old lines |
| Cart.CartStore.RemoveItem | src/store/use-cart.ts:86-92 | the new lines are the old ones without the (id, size) line; the delivery method is kept and a valid cart stays valid |
| Cart.CartStore.AddItem | src/store/use-cart.ts:34-64 | the new lines are `AddItemSpec` of the old ones; the delivery method is kept and a valid cart stays valid |
| Cart.CartStore.SetQuantity | src/store/use-cart.ts:66-84 | the new lines are `SetQuantitySpec` of the old ones; the delivery method is kept and a valid cart stays valid |
| Cart.CartStore.ClearCart | src/store/use-cart.ts:94 | clearing empties the lines and keeps the delivery method |
| Cart.CartStore.SetDeliveryMethod | src/store/use-cart.ts:96-98 | the method is replaced and the lines are untouched |
| ProductInfo.InitialSize | src/components/product/product-info.tsx:19-21 | "One Size" is preselected exactly when the product has no size rows |
| ProductInfo.SizeQuantity | src/components/product/product-info.tsx:42 | the `find` by value yields the quantity of a row with that value, and nothing exactly when no row has it |
| ProductInfo.IsPreorder | src/components/product/product-info.tsx:27-31 | a size is a preorder exactly when one is chosen, the product has sizes, and the first row with that value has quantity 0; then add-to-cart's stock limit is 0; with all rows in stock there is no preorder |
| ProductInfo.MaxAvailable | src/components/product/product-info.tsx:39-42 | the stock limit is 10 for a product without sizes, the quantity of the first row with the selected value when there is one, and 0 for a value with no row |
| ProductInfo.Decide | src/components/product/product-info.tsx:33-59 | asks for a size exactly when none is chosen; reports out of stock exactly when a sized product's row is empty; reports nothing left, with `maxAvailable`, exactly when the cart already holds the stock; otherwise adds exactly min(max(1, quantity), stock left beyond the cart's line) units |
| ProductInfo.OnAddToCart | src/components/product/product-info.tsx:33-63 | the handler takes `Decide`'s decision; only an add touches the cart, through `addItem` with the decided quantity and `maxAvailable` as the cap |
| ProductInfo.AddedUnitsLand | src/components/product/product-info.tsx:58-61 | an accepted add lands exactly the decided units on the (id, size) line, which stays within and records `maxAvailable`; a valid cart stays valid |
| ProductInfo.StepperLimit | src/components/product/product-info.tsx:147-157 | the stepper's upper limit is at least 1 |
| ProductInfo.PurchasePanel.constructor | src/components/product/product-info.tsx:19-22 | the panel starts with the initial size and quantity 1 |
| ProductInfo.PurchasePanel.SelectSize | src/components/product/product-info.tsx:84-85 | choosing a size selects it and resets the quantity to 1 |
| ProductInfo.PurchasePanel.Decrement | src/components/product/product-info.tsx:132 | "-" lowers the quantity by one, never below 1 |
| ProductInfo.PurchasePanel.Increment | src/components/product/product-info.tsx:146-158 | "+" raises the quantity by one up to the stepper's limit, never past it, and keeps a quantity within 1..limit there |
| ProductInfo.StepperBounds | src/components/product/product-info.tsx:146-175 | for a chosen size the "+" button is disabled exactly when the quantity has reached the stepper's limit, and while it is enabled the handler's `min(limit, q + 1)` is exactly q + 1 |
| Checkout.Purchasable | src/actions/checkout.ts:26 | the checked lines are exactly the cart lines with a size that is neither empty nor "One Size" |
| Checkout.PurchasableAppend | src/actions/checkout.ts:26 | the filter keeps cart order: filtering a concatenation filters each part in turn |
| Checkout.Snapshot | src/actions/checkout.ts:31-39 | the batched size query holds a checked line's row exactly when the database has it, with the same quantity |
| Checkout.StockError | src/actions/checkout.ts:41-48 | a line passes exactly when its row exists and holds at least the requested quantity |
| Checkout.FirstError | src/actions/checkout.ts:41-49 | the scan fails exactly when some line fails, with the message of the first one that does |
| Checkout.FirstErrorAppend | src/actions/checkout.ts:41-49 | scanning a concatenation reports the first part's failure, or else the second part's |
| Checkout.FirstFailingLine | src/actions/checkout.ts:26-49 | the scan's message is that of a checked cart line at some index, and every checked line before it passes |
| Checkout.FailingCheckedLine | src/actions/checkout.ts:26-49 | a failing validation reports the first checked line in cart order that has no row or too few units, judged against the size rows |
| Checkout.ValidationPassesIffInStock | src/actions/checkout.ts:24-50 | validation passes if and only if every checked line has a size row holding at least its quantity |
| Checkout.CheckStock | src/actions/checkout.ts:41-49 | the early-returning loop returns what `FirstError` specifies |
| Checkout.ValidateStock | src/actions/checkout.ts:26-50 | the validation step returns the stock check's verdict |
| Checkout.ShippingFor | src/actions/checkout.ts:53-90 | standard, express and us each get one option and every other method none; the address countries are US for us and CA otherwise |
| Checkout.LineItems | src/actions/checkout.ts:92-102 | one line item per cart line, in cart order |
| Checkout.EncodeCartItems | src/actions/checkout.ts:138-144 | the `cartItems` metadata is an array of one compact {id, size, quantity} object per cart line, in order |
| Checkout.SessionRequestFor | src/actions/checkout.ts:123-148 | the request omits shipping options exactly when the method has none, and carries the order id, the method and the compact items as metadata |
| Checkout.PendingOrder | src/actions/checkout.ts:109-120 | the inserted order is unpaid with one item per cart line, "One Size" lines included |
| Checkout.Checkout | src/actions/checkout.ts:16-164 | the action's orders, result and request are `CheckoutSpec` of the old orders and sizes; sizes, products, categories and preorders are unchanged |
| Checkout.MissingOriginWritesNothing | src/actions/checkout.ts:20-22 | a missing origin fails with "Missing origin header" and writes nothing |
| Checkout.OutOfStockCreatesNothing | src/actions/checkout.ts:41-49 | an out-of-stock cart fails with the message of the first failing checked line in cart order (every earlier checked line is in stock); no order is created and no session is requested |
| Checkout.InStockCreatesPendingOrder | src/actions/checkout.ts:108-156 | an in-stock cart creates exactly one unpaid order under the new id and requests a session carrying that id; it fails exactly when the provider fails |
| Checkout.OrderInsertFailureWritesNothing | src/actions/checkout.ts:153-156 | a failing order insert returns the generic failure and writes nothing |
| Checkout.UncheckedLinesNeverBlock | src/actions/checkout.ts:26-27 | lines without a real size never block checkout |
| Webhook.FormatAddress | src/app/api/webhooks/stripe/route.ts:27-36 | a missing address formats as "" |
| Webhook.FormatAddressIsJoinOfParts | src/app/api/webhooks/stripe/route.ts:30-35 | the address is the non-empty ones among street, city/state/postal code and country, joined with ", " |
| Webhook.FormatAddressEmptyIff | src/app/api/webhooks/stripe/route.ts:27-36 | the address is empty exactly when all six parts are |
| Webhook.DecodeElements | src/app/api/webhooks/stripe/route.ts:49-55 | every decoded line has a non-empty id and size and a positive quantity, and there are no more of them than array elements |
| Webhook.ParseCartItems | src/app/api/webhooks/stripe/route.ts:44-59 | missing, unparsable or non-array metadata decodes to no lines |
| Webhook.DecodeKeepsAll | src/app/api/webhooks/stripe/route.ts:49-55 | when every element passes the filter, every element decodes in place |
| Webhook.DecodeDropsOne | src/app/api/webhooks/stripe/route.ts:55 | one element failing the filter makes the result shorter |
| Webhook.CompactItemDecodes | src/app/api/webhooks/stripe/route.ts:50-55 | checkout's compact object for a line decodes to its id, size and quantity, and is kept exactly when they are non-empty and positive |
| Webhook.CartItemsRoundTrip | src/app/api/webhooks/stripe/route.ts:44-59 | checkout's metadata decodes back to exactly the cart's (id, size, quantity) lines, in order, if and only if every line has a non-empty id and size and a positive quantity |
| Webhook.Capture | src/app/api/webhooks/stripe/route.ts:79-87 | the handler keeps the session's order id; an absent delivery method becomes "standard" |
| Webhook.UpdateFor | src/app/api/webhooks/stripe/route.ts:105-174 | each attempt marks paid with phone and address; name and e-mail are written only when non-empty and not in the last attempt; the delivery method only in the first attempt and only when it is a known one |
| Webhook.AcceptedStage | src/app/api/webhooks/stripe/route.ts:104-177 | the first attempt the database accepts is taken in order; none is accepted exactly when the order is missing or all three are rejected |
| Webhook.Remaining | src/app/api/webhooks/stripe/route.ts:196 | the new stock is max(0, current - ordered): never negative, never below current - ordered, and one of the two |
| Webhook.DecrementLine | src/app/api/webhooks/stripe/route.ts:181-206 | a line whose row exists, whose write succeeds and whose new stock is whole sets that row to exactly max(0, current - ordered); a failing write, a missing row or a fractional result leaves the rows unchanged; other rows are untouched and no row is created or removed |
| Webhook.DecrementBounds | src/app/api/webhooks/stripe/route.ts:181-207 | for any lines, repeated keys included, the stock loop keeps every non-negative quantity between 0 and its old value, touches only named rows, and creates or removes no row |
| Webhook.DecrementAllRows | src/app/api/webhooks/stripe/route.ts:181-207 | with one line per (id, size), after the loop each named row is exactly max(0, old - ordered) when its write succeeds with a whole result and its old value otherwise; unnamed rows are unchanged |
| Webhook.DecrementAllLowersStock | src/app/api/webhooks/stripe/route.ts:181-207 | with one line per (id, size) and whole quantities, every line with a row lowers that row to exactly max(0, old - ordered) when no write fails |
| Webhook.FailedLinesSkipped | src/app/api/webhooks/stripe/route.ts:181-207 | while every earlier line fails or names no row, the rows are untouched, and the next line acts on the original rows exactly as if it were alone |
| Webhook.TryUpdate | src/app/api/webhooks/stripe/route.ts:125-128 | one update attempt writes its payload exactly when the order exists and the attempt is accepted |
| Webhook.MarkPaid | src/app/api/webhooks/stripe/route.ts:104-177 | the update with its two fallbacks writes the first accepted payload, or nothing when all fail |
| Webhook.DecrementStock | src/app/api/webhooks/stripe/route.ts:181-207 | the stock loop's rows are `DecrementAll` of the old rows; nothing else changes |
| Webhook.Post | src/app/api/webhooks/stripe/route.ts:61-345 | the handler's orders, sizes, response and e-mail decision are `Handle` of the old maps |
| Webhook.SignatureGate | src/app/api/webhooks/stripe/route.ts:65-75 | a missing or failing signature answers 400 and changes nothing |
| Webhook.VerifiedIsAcknowledged | src/app/api/webhooks/stripe/route.ts:329-344 | a verified request is always answered 200, even when processing fails |
| Webhook.OtherEventsIgnored | src/app/api/webhooks/stripe/route.ts:77-81 | other events, and sessions without an order id, are acknowledged and change nothing |
| Webhook.AlreadyPaidWritesNothing | src/app/api/webhooks/stripe/route.ts:90-94 | a session for a paid order writes nothing and is acknowledged; the e-mail is still dispatched when there is a recipient and a mailer |
| Webhook.ProcessingFailureAcknowledged | src/app/api/webhooks/stripe/route.ts:329-340 | a failing lookup, or every update attempt failing, is acknowledged with the error; nothing is written or sent |
| Webhook.FirstDeliveryMarksPaid | src/app/api/webhooks/stripe/route.ts:94-207 | a first delivery marks exactly that order paid with the captured phone and address and applies the stock loop once |
| Webhook.RedeliveryChangesNothing | src/app/api/webhooks/stripe/route.ts:90-94 | delivering the same event again after a successful delivery changes no order and no size row |
| Webhook.StockStaysNonNegative | src/app/api/webhooks/stripe/route.ts:196 | the handler keeps every size quantity non-negative and never above its old value, with the same rows |
| Webhook.StockExample | src/app/api/webhooks/stripe/route.ts:196-202 | two units bought from a row of 5 leave 3 |
| Webhook.ReceiptFor | src/app/api/webhooks/stripe/route.ts:256-291 | the e-mail's subtotal is the sum of the order's line amounts and its total is the charged amount (0 when absent); there is one product per line, built from that line; the shipping prop is present exactly when the total exceeds the subtotal, and then it is the difference |
| Webhook.ReceiptTotalsAgree | src/app/api/webhooks/stripe/route.ts:256-291 | the e-mail's subtotal is the sum of its line amounts; the shipping row appears exactly when the total exceeds the subtotal, and shows the difference |
| Webhook.EmailSubject | src/app/api/webhooks/stripe/route.ts:281 | the subject is "Order Confirmed: #" followed by the short order id, 18 + min(6, id length) characters in all |
| OrderReceipt.ShortOrderId | src/components/emails/order-receipt.tsx:45 | the short id is the last six characters of the order id (all of a shorter id), upper-cased |
| OrderReceipt.Greeting | src/components/emails/order-receipt.tsx:62 | "Hi NAME," for a non-empty name, "Hi there," otherwise |
| OrderReceipt.Render | src/components/emails/order-receipt.tsx:43-156 | the greeting is `Greeting` of the customer name; the e-mail and name rows appear exactly for non-empty values; one amount per product; a given subtotal prop is the subtotal row; a given shipping prop is the shipping row, shown exactly when positive; otherwise the shipping row appears exactly when the computed shipping is positive, and the rows add up |
| OrderReceipt.SubtotalIsSumOfLines | src/components/emails/order-receipt.tsx:43 | without a subtotal prop the subtotal row is the sum of the line amounts shown |
| CartPage.ShippingLabelOf | src/app/cart/page.tsx:136 | the shipping line reads "FREE" exactly for pickup, and otherwise shows the positive fee |
| CartPage.ShippingAgreesWithCheckout | src/app/cart/page.tsx:27-34 | the page's fee is zero exactly when checkout offers no shipping option, and otherwise equals that option's amount |
| CartPage.TotalCoversSubtotal | src/app/cart/page.tsx:22-36 | with non-negative prices and quantities the subtotal is non-negative and the total covers it |
| CartPage.SubtotalAfterRemove | src/app/cart/page.tsx:22-24 | removing a line lowers the subtotal by exactly that line's amount |
| CartPage.SubtotalAfterNewLine | src/app/cart/page.tsx:22-24 | adding a new line raises the subtotal by its price times the units added |
| CartPage.CheckoutDisabled | src/app/cart/page.tsx:146 | checkout is disabled exactly for an empty cart, whose subtotal is 0 and whose total is only the shipping fee |
| CartPage.DecrementButton | src/app/cart/page.tsx:196-197 | an enabled "-" lowers exactly that line by one, keeps it, leaves the other lines alone and keeps the cart valid |
| CartPage.IncrementButton | src/app/cart/page.tsx:208-209 | an enabled "+" raises exactly that line by one within its cap, leaves the other lines alone and keeps the cart valid |
| OrderDetail.DeliveryLabel | src/components/admin/order-detail-modal.tsx:171 | a known method shows its label; an unknown one is shown as stored |
| OrderDetail.ShippingCost | src/components/admin/order-detail-modal.tsx:59 | the fee is non-negative and 0 for an unknown method |
| OrderDetail.SummaryOf | src/components/admin/order-detail-modal.tsx:55-196 | the header is "Order #" and the short id; one line per item with its amount and quantity, the size or "One Size"; shipping shows "FREE" exactly when the fee is 0 |
| OrderDetail.SummaryAddsUp | src/components/admin/order-detail-modal.tsx:55-61 | the subtotal is the sum of the listed amounts, the total is subtotal plus fee, and the item count is the sum of the listed quantities |
| OrderDetail.FeeTablesAgree | src/components/admin/order-detail-modal.tsx:26-31 | the modal and the cart page charge the same fee for every method |
| OrderDetail.UnknownMethodIsFree | src/components/admin/order-detail-modal.tsx:59 | only standard, express and us cost anything |
| OrderDetail.ItemCountAtLeastLines | src/components/admin/order-detail-modal.tsx:61 | with positive quantities the item count is at least the number of lines |
| OrdersList.Rows | src/components/admin/orders-list.tsx:42-54 | one row per order; its total is the detail modal's total; its short id upper-cased is the modal's and the e-mail's; one label per item |
| OrdersList.ViewOf | src/components/admin/orders-list.tsx:56-62 | "No orders found." exactly when there are no orders |
| OrdersList.ProductLabelWithoutSize | src/components/admin/orders-list.tsx:49-50 | for a tidy name and no size the label reads "NAME xQTY" |
| OrdersList.ProductLabelWithSize | src/components/admin/orders-list.tsx:49-50 | for a tidy name and a tidy size the label reads "NAME (SIZE) xQTY" |
| Json.NumberFromText | src/actions/create-product.ts:11 | blank or all-whitespace text coerces to 0 |
| Json.DigitsNumber | src/actions/create-product.ts:28 | a run of decimal digits coerces to its decimal value |
| Json.FractionForm | src/actions/create-product.ts:11 | "a.b", "a." and ".b" coerce to the integer digits plus the fraction digits scaled down by 10 to the fraction's length |
| Json.ExponentForm | src/actions/create-product.ts:11 | digits, "e" or "E", an optional sign and digits coerce to the mantissa times 10 to the signed exponent |
| Json.SignForm | src/actions/create-product.ts:11 | a leading "+" leaves the number unchanged, a leading "-" negates it, and a non-number stays a non-number |
| Json.RadixForm | src/actions/create-product.ts:28 | "0x", "0o" or "0b" followed by digits of that base coerce to their value in that base |
| ProductSchema.Featured | src/actions/create-product.ts:15 | a product is featured exactly when the field is "on" |
| ProductSchema.QuantityMember | src/actions/create-product.ts:28 | a missing quantity coerces to NaN |
| ProductSchema.SizeEntry | src/actions/create-product.ts:26-29 | a size entry passes exactly when its value is a non-empty string and its quantity coerces to a whole number of at least 0 |
| ProductSchema.SizeEntries | src/actions/create-product.ts:25-30 | the array passes exactly when every entry does, entry by entry |
| ProductSchema.ParseSizes | src/actions/create-product.ts:16-30 | a missing or unparsable value is the empty list; a parsed non-array is rejected; every accepted entry is valid |
| ProductSchema.Errors | src/actions/create-product.ts:8-31 | the failing fields are exactly those whose rule fails; `min(n)` counts UTF-16 code units as JavaScript's `length` does |
| Text.Utf16Length | src/actions/create-product.ts:10 | a string's JavaScript length lies between its character count and twice it |
| Text.Utf16LengthIsCountIff | src/actions/create-product.ts:10 | the JavaScript length equals the character count exactly when no character is above U+FFFF |
| Text.Utf16LengthAppend | src/actions/create-product.ts:10 | the code-unit count of a concatenation is the sum of the parts' counts |
| ProductSchema.MinOneIsNonEmpty | src/actions/create-product.ts:9 | `min(1)` holds exactly for a present non-empty string, so code units and characters agree there |
| ProductSchema.AstralCharactersCountTwice | src/actions/create-product.ts:10 | "Nice " followed by three characters above U+FFFF is 8 characters but meets `min(10)` |
| ProductSchema.Validate | src/actions/create-product.ts:49-74 | the form is rejected exactly when some field fails, with exactly those fields; a valid form yields the submitted name, a description of at least 10 code units, gender, type, non-empty images, "on" flag and parsed sizes |
| ProductSchema.PriceCents | src/actions/create-product.ts:86 | the stored price read in cents is within half a cent of the submitted price times 100, and non-negative for a non-negative price |
| ProductSchema.SizeRows | src/actions/create-product.ts:93-98 | the created rows belong to the product and have exactly the submitted values |
| ProductSchema.SizeRowsExact | src/actions/create-product.ts:94-97 | with distinct values each row holds its submitted quantity |
| ProductSchema.SizeRowsNonNegative | src/actions/create-product.ts:28 | valid quantities give non-negative rows |
| CreateProductAction.FindCategory | src/actions/create-product.ts:77 | `findFirst` finds the first category with the name, and none exactly when none has it |
| CreateProductAction.NewProduct | src/actions/create-product.ts:82-92 | the new product has the submitted fields, an empty brand, not archived, the category's id |
| CreateProductAction.CreateProduct | src/actions/create-product.ts:47-109 | the action's products, sizes, categories and result are `CreateSpec` of the old state; orders and preorders are unchanged |
| CreateProductAction.InvalidFormWritesNothing | src/actions/create-product.ts:66-72 | an invalid form returns the field errors with "Missing Fields. Failed to Create Product." and writes nothing |
| CreateProductAction.InsertedProductIsListed | src/actions/create-product.ts:76-108 | a successful create adds exactly the new id, leaves other products and rows unchanged, keeps rows attached to products, gives a "Sneakers" category with that id, and gives the new product exactly the submitted size values |
| CreateProductAction.CreatedProductIsListed | src/actions/create-product.ts:64-108 | a redirect implies a valid form whose insert succeeded |
| CreateProductAction.CategoryFoundOrAdded | src/actions/create-product.ts:77-80 | an existing "Sneakers" category is reused and none is added; otherwise one is appended unless its own insert fails, and it stays even when the product insert then fails |
| UpdateProductAction.Revised | src/actions/update-product.ts:74-86 | the update writes the submitted fields and an empty brand and keeps the archive flag and category |
| UpdateProductAction.RowsOfOthers | src/actions/update-product.ts:89 | `deleteMany` removes exactly the product's rows and keeps the others' quantities |
| UpdateProductAction.UpdateProduct | src/actions/update-product.ts:45-107 | the action's products, sizes and result are `UpdateSpec` of the old state; categories, orders and preorders are unchanged |
| UpdateProductAction.RunTransaction | src/actions/update-product.ts:73-99 | the transaction's products, sizes and result are `Apply` of the old state |
| UpdateProductAction.ReplacedRowsAreSubmitted | src/actions/update-product.ts:88-98 | after the replace the product's rows are exactly the submitted values (none for an empty list), with the submitted quantities when the values are distinct; other products' rows are unchanged |
| UpdateProductAction.ReplaceSizesIdempotent | src/actions/update-product.ts:88-98 | replacing the sizes twice equals replacing them once |
| UpdateProductAction.UpdateKeepsOthers | src/actions/update-product.ts:73-102 | an update touches only that product and its rows, keeps rows attached to products, and a failure writes nothing |
| UpdateProductAction.ApplyIsIdempotent | src/actions/update-product.ts:73-99 | running the same transaction twice equals running it once |
| UpdateProductAction.UpdateIsIdempotent | src/actions/update-product.ts:45-107 | resubmitting the same form equals submitting it once |
| DeleteProductAction.DeleteProduct | src/actions/delete-product.ts:6-21 | the action's products and result are `DeleteSpec` of the old products; nothing else changes |
| DeleteProductAction.DeleteArchivesOnly | src/actions/delete-product.ts:9-19 | delete succeeds exactly for a present id without fault; it only sets `isArchived`, and a failure writes nothing and reports the reason |
| DeleteProductAction.DeleteIsIdempotent | src/actions/delete-product.ts:9-15 | deleting a deleted product again succeeds and changes nothing |
| DeleteProductAction.DeleteKeepsRowsAttached | src/actions/delete-product.ts:9-12 | the soft delete keeps every size row attached to a product |
| CreatePreorderAction.Errors | src/actions/create-preorder.ts:6-13 | the failing fields are exactly those whose rule fails |
| CreatePreorderAction.Record | src/actions/create-preorder.ts:50-60 | the new preorder is PENDING with the submitted fields; instagram is null exactly when it was empty |
| CreatePreorderAction.CreatePreorder | src/actions/create-preorder.ts:28-66 | the action's preorders and result are `CreateSpec` of the old preorders; nothing else changes |
| CreatePreorderAction.CreateAddsOnePending | src/actions/create-preorder.ts:38-65 | creation succeeds exactly for a valid form and a working insert, adding one PENDING preorder and keeping the others; otherwise nothing changes, and field errors list exactly the failing fields |
| UpdatePreorderStatusAction.UpdatePreorderStatus | src/actions/update-preorder-status.ts:6-23 | the action's preorders and result are `StatusSpec` of the old preorders; nothing else changes |
| UpdatePreorderStatusAction.StatusChangeKeepsStatusesKnown | src/actions/update-preorder-status.ts:9-22 | only PENDING, CONTACTED and CLOSED are accepted; success changes only that preorder's status; every preorder's status stays one of the three |
| UpdatePreorderStatusAction.CreationKeepsStatusesKnown | src/actions/create-preorder.ts:58 | a new preorder's PENDING status keeps every status known |
| ProductFormState.Drop | src/components/admin/product-form.tsx:134 | removing an image keeps exactly the other images |
| ProductFormState.DropKeepsDistinct | src/components/admin/product-form.tsx:133-134 | removing an image keeps the images distinct |
| ProductFormState.DraftsOf | src/components/admin/product-form.tsx:31-33 | the form loads one row per stored size with its value and quantity |
| ProductFormState.DraftEntry | src/components/admin/product-form.tsx:159 | a row passes the schema exactly when its value is non-empty and its quantity a whole number of at least 0 |
| ProductFormState.SubmittedSizesRoundTrip | src/components/admin/product-form.tsx:159 | the hidden `sizes` JSON is accepted exactly when every row is, and then decodes row by row |
| ProductFormState.LoadedSizesRoundTrip | src/components/admin/product-form.tsx:31-33 | resubmitting the sizes as loaded gives back exactly the stored sizes |
| ProductFormState.ProductEditor.constructor | src/components/admin/product-form.tsx:29-35 | the editor starts from the product's images, sizes, gender and type, or empty and MEN/SHOES |
| ProductFormState.ProductEditor.Action | src/components/admin/product-form.tsx:37-40 | the form updates exactly when it edits a product with an id |
| ProductFormState.ProductEditor.AddImage | src/components/admin/product-form.tsx:133 | an upload appends a new URL, ignores a known one, and keeps the images distinct |
| ProductFormState.ProductEditor.RemoveImage | src/components/admin/product-form.tsx:134 | the images are the old ones without the URL |
| ProductFormState.ProductEditor.AddSize | src/components/admin/product-form.tsx:211 | adding appends a blank row |
| ProductFormState.ProductEditor.RemoveSize | src/components/admin/product-form.tsx:196 | removing drops exactly that row |
| ProductFormState.ProductEditor.EditSizeValue | src/components/admin/product-form.tsx:171-174 | editing a value changes only that row's value |
| ProductFormState.ProductEditor.EditSizeQuantity | src/components/admin/product-form.tsx:184-187 | editing a quantity changes only that row's quantity, to 0 when the input is not a number |
| ProductFormState.ProductEditor.Submission | src/components/admin/product-form.tsx:130-159 | the submitted form carries the editor's images, its sizes as JSON and the featured flag |
| ProductFormState.BlankRowBlocksSubmission | src/components/admin/product-form.tsx:211 | a form with an untouched added row is rejected on its sizes |
| QueryParams.FirstIndex | src/components/shop/filter-sidebar.tsx:45 | the first pair with the key, and none exactly when none has it |
| QueryParams.Serialize | src/components/shop/filter-sidebar.tsx:49 | the query string is empty exactly when there are no pairs |
| QueryParams.Target | src/components/shop/filter-sidebar.tsx:49-50 | the navigation target is the bare path for an empty query, else the path, "?" and the query |
| QueryParams.OnlyAfterSet | src/components/shop/filter-sidebar.tsx:45 | after `set` the key has exactly one pair with the new value and every other key's pairs are unchanged |
| QueryParams.OnlyAfterDelete | src/components/shop/filter-sidebar.tsx:43 | after `delete` the key has no pair and every other key's pairs are unchanged |
| QueryParams.LookupAfterEdits | src/components/shop/filter-sidebar.tsx:41-46 | `get` after `set` gives the new value, after `delete` nothing, and other keys read as before |
| QueryParams.SetThenDelete | src/components/shop/filter-sidebar.tsx:41-46 | setting an absent key and deleting it gives back the original query |
| QueryParams.SearchParams.Set | src/components/shop/filter-sidebar.tsx:45 | `set` replaces the first pair of the key and drops the rest, or appends |
| QueryParams.SearchParams.Delete | src/components/shop/filter-sidebar.tsx:43 | `delete` removes every pair of the key |
| FilterSidebar.SizeMenus | src/components/shop/filter-sidebar.tsx:23-34 | six clothing sizes, eight shoe sizes, "One Size" for accessories, both lists otherwise; the menus are duplicate-free |
| FilterSidebar.UpdateSize | src/components/shop/filter-sidebar.tsx:38-52 | clicking the current size deletes it, any other size sets it; the target carries the result |
| FilterSidebar.ClearSize | src/components/shop/filter-sidebar.tsx:54-62 | clearing deletes the size; the target carries the result |
| FilterSidebar.OnTypeChange | src/components/shop/filter-sidebar.tsx:117-128 | checking a type sets it and unchecking deletes it |
| FilterSidebar.SizeClick | src/components/shop/filter-sidebar.tsx:38-52 | a click toggles the size and leaves every other parameter alone; the target is the bare path exactly when no parameter is left |
| FilterSidebar.SizeClickTwice | src/components/shop/filter-sidebar.tsx:41-46 | clicking a size twice from none restores the original query |
| FilterSidebar.ClearAndTypeKeepOthers | src/components/shop/filter-sidebar.tsx:54-62 | "Clear" removes only the size and a checkbox edits only the type |
| ProductFilters.CurrentPath | src/components/product/product-filters.tsx:21 | the bar navigates on the base path when given, else on the current path |
| ProductFilters.SetOrDelete | src/components/product/product-filters.tsx:37-41 | `setOrDelete` edits the parameters as `SetOrDeleteSpec` says |
| ProductFilters.Apply | src/components/product/product-filters.tsx:33-51 | `apply` edits both keys and navigates to the result |
| ProductFilters.SetOrDeleteEffect | src/components/product/product-filters.tsx:37-41 | the key then reads the trimmed value, or nothing when that is empty; other keys are unchanged |
| ProductFilters.ApplyEffect | src/components/product/product-filters.tsx:33-51 | search and category then read their trimmed values and nothing else changes; clearing removes both |
| ProductFilters.ApplyCleared | src/components/product/product-filters.tsx:95-98 | `apply` with both fields blank removes exactly the `search` and `categoryId` keys and navigates to the result |
| ProductFilters.FilterBar.constructor | src/components/product/product-filters.tsx:21-27 | the inputs start from the URL's search and category, or "" |
| ProductFilters.FilterBar.OnSearchInput | src/components/product/product-filters.tsx:60-64 | typing updates the search input and applies it with the current category |
| ProductFilters.FilterBar.OnCategoryChange | src/components/product/product-filters.tsx:74-78 | choosing updates the category and applies it with the current search |
| ProductFilters.FilterBar.ClearFilters | src/components/product/product-filters.tsx:95-98 | clearing empties both inputs and removes both keys |
| ProductFilters.FilterBar.Navigated | src/components/product/product-filters.tsx:29-31 | an input resyncs from the URL only when that URL value changed |
| ProductFilters.TypedSearchSurvivesNavigation | src/components/product/product-filters.tsx:29-31 | after typing already-trimmed text, the resync leaves the typed search in the input |
| AdminToast.ToastFor | src/components/admin/admin-toast-listener.tsx:7-29 | created, updated and deleted show a success toast reading "Product KEY."; a member inherited from `Object.prototype` (such as `constructor`) takes the error branch with no message; every other key shows nothing |
| AdminToast.Listener.constructor | src/components/admin/admin-toast-listener.tsx:17 | the listener starts having handled no key |
| AdminToast.Listener.OnParams | src/components/admin/admin-toast-listener.tsx:19-36 | the effect does what `React` specifies |
| AdminToast.HandledOnceInARow | src/components/admin/admin-toast-listener.tsx:19-36 | a new key shows its toast once and navigates to the URL without `toast`, other parameters unchanged; the same key again does nothing |
| AdminToast.NoToastNoAction | src/components/admin/admin-toast-listener.tsx:20-21 | without a toast value the listener does nothing |
| Testimonials.ClampRating | src/components/ui/testimonial-section.tsx:6-9 | the rating is an integer from 0 to 5: 0 for a non-finite or negative value, 5 from 5 up, else the floor |
| Testimonials.FilledStarsAreRating | src/components/ui/testimonial-section.tsx:35-43 | the number of filled stars is the clamped rating |
| Testimonials.Section | src/components/ui/testimonial-section.tsx:25-43 | one row of stars per review, each filled to its clamped rating |
| Catalogue.BuildWhere | src/app/shop/page.tsx:76-95 | the built filter matches a product exactly when the query parameters select it: not archived, a known gender or type, a size row with the value, a name containing the search case-insensitively, the category |
| Catalogue.Listing | src/app/admin/products/page.tsx:54-57 | the listing is exactly the products the filter matches |
| Catalogue.UnknownNamesIgnored | src/app/shop/page.tsx:77-82 | an unknown gender or type filters nothing |
| Catalogue.ArchivedNeverListed | src/app/shop/page.tsx:76 | archived products are never listed |
| Catalogue.AdminViewOf | src/app/admin/products/page.tsx:70-96 | "No products found." exactly when no product matches, otherwise the matches |
| Catalogue.GenderLabel | src/app/shop/page.tsx:52-65 | "All Products" exactly for a missing or unknown gender |
| Catalogue.Metadata | src/app/shop/page.tsx:20-50 | a known gender gets its own title and description, anything else the defaults |
| Catalogue.TitleAndLabelAgree | src/app/shop/page.tsx:20-65 | the title and the label agree for every gender except men's, whose title differs |

## Left out

- Rendering, styling, toasts' visual form, transitions and the `isPending` states are not modelled. The model keeps only the values the UI computes.
- I/O is replaced by parameters:
  - headers, the router and `revalidatePath`;
  - the payment provider's API and its signature verification;
  - the mailer;
  - `localStorage` persistence.
- Concurrency and timing are not modelled:
  - the webhook's fire-and-forget e-mail promise;
  - React effects running more than once;
  - two requests racing on the same order.
- JSON text is not parsed. Metadata and form values arrive as `Json.JsonText`: absent, malformed, or the decoded value. Number-to-string conversion is modelled only for the decimal numbers the cart writes.
- The webhook's test-mode redirection of the e-mail recipient (`src/app/api/webhooks/stripe/route.ts:216-224`) depends on the environment and is not modelled. The e-mail's sending is not modelled either: only whether it is dispatched, and its totals, are modelled.
- Currency formatting (`Intl.NumberFormat`, `toFixed(2)`) and dates are not modelled. Amounts are integer cents.
- ProductSchema.PriceCents: prices are stored as floating-point dollars in the source. The model rounds the submitted real price to the nearest cent, so float rounding is not modelled.
- Webhook.ReceiptFor: the source divides the charged amount, which the provider reports in cents, by 100 to compare it with the dollar subtotal. All amounts here are cents, so the model uses the charged amount as it is. This is the same quantity in another unit.
- ProductSchema.IsUrl approximates zod's `.url()`. It checks a scheme, a colon, and a host for the special schemes. It does not model the full WHATWG URL parser, whitespace stripping or percent-decoding.
- QueryParams.Serialize joins `key=value` pairs with `&` and does no percent-encoding. Parameters whose keys or values need escaping are outside the model.
- Catalogue.BuildWhere: each query parameter is a single optional string. A repeated parameter, which Next.js delivers as an array, is not modelled.
- Catalogue.Listing is a set. The `createdAt` ordering of the listings is not modelled.
- Text.ContainsIgnoreCase folds only ASCII letters. The database's Unicode case-insensitive match is not modelled.
- OrderReceipt.ShortOrderId upper-cases with the same ASCII-only `Text.ToUpper`. Order ids are the database's object ids, 24-character hexadecimal strings (`src/app/product/[productId]/page.tsx:9` checks product ids against that form), so ASCII covers every id the store issues.
- Cart.CapOf takes `maxAvailable` as a real, so a NaN cap cannot be passed. In the source `Math.max(0, Math.floor(NaN))` is NaN and the line's quantity would become NaN (`src/store/use-cart.ts:43-44`). Every caller passes an integer stock figure.
- The size rows are a map keyed by (product id, value). Two rows of one product with the same value collapse into one. This is why `ProductSchema.SizeRowsExact` and `UpdateProductAction.ReplacedRowsAreSubmitted` state quantities only for distinct submitted values.
- The `byKey` map of checkout's stock check is not built by a loop. `Checkout.Snapshot` gives the same lookups directly.
- Checkout.PendingOrder: the order's other fields get their defaults, and the database's default values are not modelled.
- Webhook.DecrementLine: a metadata quantity that is not a whole number makes the row's write fail, because the column holds integers. The line is then skipped.
- DecrementBounds: states only bounds, because it holds for any lines, repeated (id, size) keys included. The exact new stock max(0, old - ordered) is stated by `Webhook.DecrementAllRows` and `Webhook.DecrementAllLowersStock`, which need one line per (id, size), as the cart produces.
- Json.NumberFromText: reals are exact, so the rounding of long or fractional decimal texts to the nearest double, and text that overflows to Infinity such as "1e400", are not modelled. The literal `Infinity` is grouped with NaN as non-finite.
- ProductSchema.Validate: a price of `Infinity` is rejected with the other non-finite values. Whether the schema library's number check lets Infinity through depends on its version, which is not part of this model.
- The `delete-preorder` action and the preorder modal are not part of this model. They sit outside the core of the money path and the product actions.
- The product form's price and description inputs, headings and the image-upload widget are not modelled. The form is modelled through the values it submits.
- Catalogue.Metadata: the chain of four comparisons is written as the enum check `Store.ParseGender` followed by the table `Catalogue.GenderMetadata`. These are the same cases with the same strings.
- The admin pages' authentication, the middleware, the sitemap and the seed scripts are not part of this model.
