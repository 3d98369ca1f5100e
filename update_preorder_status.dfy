/**
  Moving a preorder between the admin's statuses. Any of the three statuses may follow any
  other; anything else is refused before the database is touched.
 */
module UpdatePreorderStatusAction {
  import opened Store
  import CreatePreorderAction

  const Statuses: seq<string> := ["PENDING", "CONTACTED", "CLOSED"]

  datatype StatusResult = StatusUpdated | StatusRejected(message: string)

  const InvalidStatusMessage := "Invalid status"
  const FailureMessage := "Failed to update preorder status"

  datatype StatusChange = StatusChange(preorders: map<string, Preorder>, result: StatusResult)

  /** `updatePreorderStatus`. Updating an id with no record throws, like any other failure. */
  function StatusSpec(preorders: map<string, Preorder>, preorderId: string, status: string, fails: bool): StatusChange {
    if status !in Statuses then StatusChange(preorders, StatusRejected(InvalidStatusMessage))
    else if fails || preorderId !in preorders then StatusChange(preorders, StatusRejected(FailureMessage))
    else StatusChange(preorders[preorderId := preorders[preorderId].(status := status)], StatusUpdated)
  }

  method UpdatePreorderStatus(db: Database, preorderId: string, status: string, fails: bool) returns (result: StatusResult)
    modifies db
    ensures StatusChange(db.preorders, result) == StatusSpec(old(db.preorders), preorderId, status, fails)
    ensures db.products == old(db.products) && db.sizes == old(db.sizes)
    ensures db.categories == old(db.categories) && db.orders == old(db.orders)
  {
    if status !in Statuses {
      return StatusRejected(InvalidStatusMessage);
    }
    if fails || preorderId !in db.preorders {
      return StatusRejected(FailureMessage);
    }
    db.preorders := db.preorders[preorderId := db.preorders[preorderId].(status := status)];
    result := StatusUpdated;
  }

  /** Every stored preorder is in one of the three statuses. */
  predicate StatusesKnown(preorders: map<string, Preorder>) {
    forall id :: id in preorders ==> preorders[id].status in Statuses
  }

  /** A status change writes exactly the requested status on exactly one preorder, whatever its
      status was before, and an unknown status is refused without a write; so the statuses stay
      known. */
  lemma StatusChangeKeepsStatusesKnown(preorders: map<string, Preorder>, preorderId: string, status: string, fails: bool)
    requires StatusesKnown(preorders)
    ensures var c := StatusSpec(preorders, preorderId, status, fails);
            && StatusesKnown(c.preorders)
            && (c.result == StatusUpdated <==> status in Statuses && !fails && preorderId in preorders)
            && (c.result == StatusUpdated ==>
                  c.preorders == preorders[preorderId := preorders[preorderId].(status := status)])
            && (c.result != StatusUpdated ==> c.preorders == preorders)
  {
  }

  /** New preorders start as "PENDING", one of the statuses, so creating one keeps them known. */
  lemma CreationKeepsStatusesKnown(preorders: map<string, Preorder>, form: CreatePreorderAction.PreorderSubmission,
                                   newId: string, insertFails: bool)
    requires StatusesKnown(preorders)
    ensures StatusesKnown(CreatePreorderAction.CreateSpec(preorders, form, newId, insertFails).preorders)
  {
    assert CreatePreorderAction.PendingStatus == Statuses[0];
  }
}
