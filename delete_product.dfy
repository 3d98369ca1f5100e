/**
  Deleting a product from the admin list: a soft delete that marks the record archived and
  keeps it, so that past orders can still name it.
 */
module DeleteProductAction {
  import opened Store

  datatype DeleteResult = DeleteSucceeded | DeleteFailed(message: string)

  /** The failure message, with the thrown error's message (or "Unknown error") in brackets. */
  function FailureMessage(reason: string): string {
    "Database Error: Failed to delete product (" + reason + ")"
  }

  datatype Deletion = Deletion(products: map<string, Product>, result: DeleteResult)

  /** `deleteProduct`. Updating an id with no record throws; `reason` is the message of whatever
      was thrown. */
  function DeleteSpec(products: map<string, Product>, productId: string, fails: bool, reason: string): Deletion {
    if fails || productId !in products then Deletion(products, DeleteFailed(FailureMessage(reason)))
    else Deletion(products[productId := products[productId].(isArchived := true)], DeleteSucceeded)
  }

  method DeleteProduct(db: Database, productId: string, fails: bool, reason: string) returns (result: DeleteResult)
    modifies db
    ensures Deletion(db.products, result) == DeleteSpec(old(db.products), productId, fails, reason)
    ensures db.sizes == old(db.sizes) && db.categories == old(db.categories)
    ensures db.orders == old(db.orders) && db.preorders == old(db.preorders)
  {
    if fails || productId !in db.products {
      return DeleteFailed(FailureMessage(reason));
    }
    db.products := db.products[productId := db.products[productId].(isArchived := true)];
    result := DeleteSucceeded;
  }

  /** Nothing is removed: every product stays stored, the deleted one differs from before only
      in being archived, and a failure changes nothing. */
  lemma DeleteArchivesOnly(products: map<string, Product>, productId: string, fails: bool, reason: string)
    ensures var d := DeleteSpec(products, productId, fails, reason);
            && d.products.Keys == products.Keys
            && (forall id :: id in products && id != productId ==> d.products[id] == products[id])
            && (d.result == DeleteSucceeded <==> !fails && productId in products)
            && (d.result == DeleteSucceeded ==>
                  d.products[productId].isArchived && d.products[productId].(isArchived := products[productId].isArchived) == products[productId])
            && (d.result.DeleteFailed? ==> d.products == products && d.result.message == FailureMessage(reason))
  {
  }

  /** Deleting a deleted product again succeeds and changes nothing. */
  lemma DeleteIsIdempotent(products: map<string, Product>, productId: string, reason: string)
    requires productId in products
    ensures var once := DeleteSpec(products, productId, false, reason);
            DeleteSpec(once.products, productId, false, reason) == once
  {
    var once := DeleteSpec(products, productId, false, reason);
    assert once.products[productId].(isArchived := true) == once.products[productId];
  }

  /** Archiving keeps every size row attached to a stored product. */
  lemma DeleteKeepsRowsAttached(products: map<string, Product>, sizes: map<SizeKey, int>, productId: string,
                                fails: bool, reason: string)
    requires RowsBelongToProducts(products, sizes)
    ensures RowsBelongToProducts(DeleteSpec(products, productId, fails, reason).products, sizes)
  {
  }
}
