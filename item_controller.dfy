/** src/controllers/itemController.js: the item handlers over the Item collection, held here as
    a map from id to record. Every handler either answers or hands an error to `next`; the
    caller's id is `req.user.userId` as the authentication middleware set it. */
module ItemController {
  import opened Common
  import opened Text
  import opened ErrorHandler
  import opened ItemModel

  /** The JSON bodies the handlers send on success. */
  datatype ItemReply =
    | ItemCreated(message: string, title: string, description: string, location: string, lost: bool,
                  itemId: Id, dateReported: nat, reportedByuserId: Id)
    | ItemFound(item: Item)
    | ItemList(items: seq<Item>, count: nat)
    | NoItemsYet(msg: string)
    | ItemUpdated(msg: string, item: Item)
    | ItemClaimed(msg: string, title: string, description: string, location: string, itemId: Id,
                  lost: bool, claimedBy: Option<Id>, dateClaimed: Option<nat>)
    | ClaimConfirmed(msg: string, title: string, description: string, location: string, itemId: Id,
                     lost: bool, claimedBy: Option<Id>, dateClaimed: Option<nat>, claimConfirmed: Option<bool>)
    | ItemDeleted(msg: string)

  /** 201 for a creation, 200 for everything else. */
  function ReplyStatus(reply: ItemReply): int {
    if reply.ItemCreated? then 201 else 200
  }

  const CreatedMessage := "The item has been created."
  const NoItemsMessage := "This user has not reported any items yet."
  const UpdatedMessage := "The item has been updated."
  const ClaimedMessage := "The item has been successfully claimed."
  const ConfirmedMessage := "The claim of this item has successfully been confirmed."
  const DeletedMessage := "The item has been deleted."

  /** `new NotFoundError()`, thrown when a query matches nothing. */
  const NoMatch := CustomError(NotFound, "")

  function UnknownUser(userId: Id): ErrorValue {
    CustomError(NotFound, "The user with id:" + NatToString(userId) + " was not found.")
  }

  /** A failed match reaches the client as 404 with the handler's fallback message; an unknown
      user as 404 naming the id. */
  lemma NotFoundResponses(userId: Id)
    ensures Respond(NoMatch) == ErrorResponse(StatusNotFound, DefaultMessage)
    ensures Respond(UnknownUser(userId)).statusCode == StatusNotFound
    ensures Respond(UnknownUser(userId)).msg == UnknownUser(userId).message
  {
    CustomErrorResponse(NotFound, "");
  }

  /** The creation reply: `dateReported` is the record's `createdAt`. */
  function CreatedReply(item: Item): ItemReply {
    ItemCreated(CreatedMessage, item.title, item.description, item.location, item.lost,
                item.id, item.createdAt, item.reportedBy)
  }

  function ClaimedReply(item: Item): ItemReply {
    ItemClaimed(ClaimedMessage, item.title, item.description, item.location, item.id,
                item.lost, item.claimedBy, item.dateClaimed)
  }

  function ConfirmedReply(item: Item): ItemReply {
    ClaimConfirmed(ConfirmedMessage, item.title, item.description, item.location, item.id,
                   item.lost, item.claimedBy, item.dateClaimed, item.claimConfirmed)
  }

  /** The filter `{ _id: itemId, reportedBy: userId }`. */
  predicate ReportedByCaller(items: map<Id, Item>, itemId: Id, caller: Id) {
    itemId in items && items[itemId].reportedBy == caller
  }

  /** The filter `{ _id: itemId, claimedBy: userId, claimConfirmed: true }`. */
  predicate ConfirmedForCaller(items: map<Id, Item>, itemId: Id, caller: Id) {
    itemId in items && items[itemId].claimedBy == Some(caller) && items[itemId].claimConfirmed == Some(true)
  }

  class ItemStore {
    var items: map<Id, Item>
    var nextId: Id
    /** `Date.now()` as evaluated once, when the schema was built. */
    const dateReportedDefault: nat

    /** Records are keyed by their own id, every stored id is below the counter (whether the
        counter or the body supplied it), and every stored record passed the schema's
        validation. */
    ghost predicate Valid()
      reads this
    {
      forall k :: k in items ==> items[k].id == k && k < nextId && WellFormed(items[k])
    }

    constructor (schemaBuiltAt: nat)
      ensures Valid() && items == map[] && dateReportedDefault == schemaBuiltAt
    {
      items := map[];
      nextId := 0;
      dateReportedDefault := schemaBuiltAt;
    }

    /** `createItem`: the body's `reportedBy` is overwritten with the caller, then the record is
        validated and inserted under the `_id` the body names, if any, or else a new one; an
        `_id` already in use fails the insertion with a duplicate key. */
    method CreateItem(caller: Id, body: ItemBody, requestedId: Option<Id>, now: nat) returns (r: Result<ItemReply, ErrorValue>)
      requires Valid()
      modifies this
      ensures Valid()
      ensures old(nextId) !in old(items)
      ensures var sent := body.(reportedBy := Some(caller));
              var id := requestedId.GetOr(old(nextId));
              if CreateFailures(sent) != [] then
                r == Err(ValidationError(CreateSummary, CreateFailures(sent)))
                && items == old(items) && nextId == old(nextId)
              else if id in old(items) then
                r == Err(DuplicateKeyError(["_id"])) && items == old(items) && nextId == old(nextId)
              else
                var item := NewItem(id, sent, now, dateReportedDefault);
                && items == old(items)[id := item] && nextId == Advance(old(nextId), id)
                && r == Ok(CreatedReply(item))
                && item.reportedBy == caller && item.createdAt == now
                && (body.lost.None? ==> item.lost)
                && (body.dateReported.None? ==> item.dateReported == dateReportedDefault)
      ensures requestedId.None? ==> r != Err(DuplicateKeyError(["_id"]))
    {
      var sent := body.(reportedBy := Some(caller));
      var failures := CreateFailures(sent);
      if failures != [] {
        r := Err(ValidationError(CreateSummary, failures));
        return;
      }
      var id := requestedId.GetOr(nextId);
      if id in items {
        // E11000 from the `_id` index, handed to the error handler.
        r := Err(DuplicateKeyError(["_id"]));
        return;
      }
      var item := NewItem(id, sent, now, dateReportedDefault);
      CreateValidationMeaning(id, sent, now, dateReportedDefault);
      items := items[id := item];
      nextId := Advance(nextId, id);
      r := Ok(CreatedReply(item));
    }

    /** `getItem`: the record with that id, or NotFound. */
    method GetItem(itemId: Id) returns (r: Result<ItemReply, ErrorValue>)
      ensures itemId in items ==> r == Ok(ItemFound(items[itemId]))
      ensures itemId !in items ==> r == Err(NoMatch)
    {
      if itemId !in items {
        return Err(NoMatch);
      }
      r := Ok(ItemFound(items[itemId]));
    }

    /** `getAllItems`: every record once, oldest first, with its count. */
    method GetAllItems() returns (r: Result<ItemReply, ErrorValue>)
      requires Valid()
      ensures r.Ok? && r.value.ItemList?
      ensures Enumerates(r.value.items, items) && r.value.count == |r.value.items|
    {
      var all := ByCreation(items);
      r := Ok(ItemList(all, |all|));
    }

    /** `getAllItemsByUser`: NotFound for an id that is not a stored user (whatever items
        reference it), a message when the user has reported nothing, and otherwise exactly
        that user's records, oldest first. `userIds` are the ids of the User collection. */
    method GetAllItemsByUser(userId: Id, userIds: set<Id>) returns (r: Result<ItemReply, ErrorValue>)
      requires Valid()
      ensures userId !in userIds ==> r == Err(UnknownUser(userId))
      ensures userId in userIds && ReportedBy(items, userId) == map[] ==> r == Ok(NoItemsYet(NoItemsMessage))
      ensures userId in userIds && ReportedBy(items, userId) != map[] ==>
                r.Ok? && r.value.ItemList? && r.value.count == |r.value.items|
                && Enumerates(r.value.items, ReportedBy(items, userId))
                && forall i :: 0 <= i < |r.value.items| ==> r.value.items[i].reportedBy == userId
      ensures r.Ok? && r.value.ItemList? ==> r.value.items == OfReporter(ByCreation(items), userId)
    {
      var mine := ReportedBy(items, userId);
      var found := ByCreation(mine);
      ListingByReporter(items, userId);
      if userId !in userIds {
        r := Err(UnknownUser(userId));
      } else if mine == map[] {
        r := Ok(NoItemsYet(NoItemsMessage));
      } else {
        r := Ok(ItemList(found, |found|));
      }
    }

    /** `updateItem`. The update validators run first, so a body setting `title`,
        `description` or `location` to "" is a ValidationError before any lookup; then only the
        reporter's record matches; the merged record is written and returned. The three
        empty-string BadRequest checks the handler makes after the write can no longer fire. */
    method UpdateItem(caller: Id, itemId: Id, body: ItemBody, now: nat) returns (r: Result<ItemReply, ErrorValue>)
      requires Valid()
      modifies this
      ensures Valid() && nextId == old(nextId)
      ensures UpdateFailures(body) != [] ==>
                r == Err(ValidationError(UpdateSummary, UpdateFailures(body))) && items == old(items)
      ensures UpdateFailures(body) == [] && !ReportedByCaller(old(items), itemId, caller) ==>
                r == Err(NoMatch) && items == old(items)
      ensures UpdateFailures(body) == [] && ReportedByCaller(old(items), itemId, caller) ==>
                var updated := Merge(old(items)[itemId], body, now);
                items == old(items)[itemId := updated] && r == Ok(ItemUpdated(UpdatedMessage, updated))
    {
      var failures := UpdateFailures(body);
      if failures != [] {
        r := Err(ValidationError(UpdateSummary, failures));
        return;
      }
      if !(itemId in items && items[itemId].reportedBy == caller) {
        r := Err(NoMatch);
        return;
      }
      var updated := Merge(items[itemId], body, now);
      UpdateKeepsWellFormed(items[itemId], body, now);
      items := items[itemId := updated];
      if body.title == Some("") || body.description == Some("") || body.location == Some("") {
        r := Err(CustomError(BadRequest, ""));
      } else {
        r := Ok(ItemUpdated(UpdatedMessage, updated));
      }
    }

    /** `claimItem`: any caller may claim any stored item; `lost`, `claimedBy` and
        `dateClaimed` are forced on top of the rest of the body, overwriting an earlier claim. */
    method ClaimItem(caller: Id, itemId: Id, body: ItemBody, now: nat) returns (r: Result<ItemReply, ErrorValue>)
      requires Valid()
      modifies this
      ensures Valid() && nextId == old(nextId)
      ensures UpdateFailures(body) != [] ==>
                r == Err(ValidationError(UpdateSummary, UpdateFailures(body))) && items == old(items)
      ensures UpdateFailures(body) == [] && itemId !in old(items) ==> r == Err(NoMatch) && items == old(items)
      ensures UpdateFailures(body) == [] && itemId in old(items) ==>
                var claimed := Merge(old(items)[itemId], ClaimBody(body, caller, now), now);
                && items == old(items)[itemId := claimed] && r == Ok(ClaimedReply(claimed))
                && !claimed.lost && claimed.claimedBy == Some(caller) && claimed.dateClaimed == Some(now)
    {
      var sent := ClaimBody(body, caller, now);
      var failures := UpdateFailures(sent);
      assert failures == UpdateFailures(body);
      if failures != [] {
        r := Err(ValidationError(UpdateSummary, failures));
        return;
      }
      if itemId !in items {
        r := Err(NoMatch);
        return;
      }
      var claimed := Merge(items[itemId], sent, now);
      UpdateKeepsWellFormed(items[itemId], sent, now);
      items := items[itemId := claimed];
      r := Ok(ClaimedReply(claimed));
    }

    /** `confirmClaim`: the reporter sets `claimConfirmed`, claimed or not. */
    method ConfirmClaim(caller: Id, itemId: Id, body: ItemBody, now: nat) returns (r: Result<ItemReply, ErrorValue>)
      requires Valid()
      modifies this
      ensures Valid() && nextId == old(nextId)
      ensures UpdateFailures(body) != [] ==>
                r == Err(ValidationError(UpdateSummary, UpdateFailures(body))) && items == old(items)
      ensures UpdateFailures(body) == [] && !ReportedByCaller(old(items), itemId, caller) ==>
                r == Err(NoMatch) && items == old(items)
      ensures UpdateFailures(body) == [] && ReportedByCaller(old(items), itemId, caller) ==>
                var confirmed := Merge(old(items)[itemId], ConfirmBody(body), now);
                && items == old(items)[itemId := confirmed] && r == Ok(ConfirmedReply(confirmed))
                && confirmed.claimConfirmed == Some(true)
    {
      var sent := ConfirmBody(body);
      var failures := UpdateFailures(sent);
      assert failures == UpdateFailures(body);
      if failures != [] {
        r := Err(ValidationError(UpdateSummary, failures));
        return;
      }
      if !(itemId in items && items[itemId].reportedBy == caller) {
        r := Err(NoMatch);
        return;
      }
      var confirmed := Merge(items[itemId], sent, now);
      UpdateKeepsWellFormed(items[itemId], sent, now);
      items := items[itemId := confirmed];
      r := Ok(ConfirmedReply(confirmed));
    }

    /** `deleteItem`: only the reporter's record matches, at any stage of the lifecycle. */
    method DeleteItem(caller: Id, itemId: Id) returns (r: Result<ItemReply, ErrorValue>)
      requires Valid()
      modifies this
      ensures Valid() && nextId == old(nextId)
      ensures ReportedByCaller(old(items), itemId, caller) ==>
                items == old(items) - {itemId} && r == Ok(ItemDeleted(DeletedMessage))
      ensures !ReportedByCaller(old(items), itemId, caller) ==> items == old(items) && r == Err(NoMatch)
    {
      if !(itemId in items && items[itemId].reportedBy == caller) {
        r := Err(NoMatch);
        return;
      }
      items := items - {itemId};
      r := Ok(ItemDeleted(DeletedMessage));
    }

    /** `deleteConfirmedItem`: only a record claimed by the caller and confirmed matches. */
    method DeleteConfirmedItem(caller: Id, itemId: Id) returns (r: Result<ItemReply, ErrorValue>)
      requires Valid()
      modifies this
      ensures Valid() && nextId == old(nextId)
      ensures ConfirmedForCaller(old(items), itemId, caller) ==>
                items == old(items) - {itemId} && r == Ok(ItemDeleted(DeletedMessage))
      ensures !ConfirmedForCaller(old(items), itemId, caller) ==> items == old(items) && r == Err(NoMatch)
    {
      if !(itemId in items && items[itemId].claimedBy == Some(caller) && items[itemId].claimConfirmed == Some(true)) {
        r := Err(NoMatch);
        return;
      }
      items := items - {itemId};
      r := Ok(ItemDeleted(DeletedMessage));
    }
  }

  /** One item through its whole lifecycle: user A reports a lost wallet, user B claims it, A
      confirms the claim, and B, the confirmed claimer, deletes the item. */
  method WalletLifecycle(a: Id, b: Id, t0: nat) returns (created: Result<ItemReply, ErrorValue>,
      claimed: Result<ItemReply, ErrorValue>, confirmed: Result<ItemReply, ErrorValue>,
      deleted: Result<ItemReply, ErrorValue>, left: map<Id, Item>)
    ensures created.Ok? && ReplyStatus(created.value) == 201
    ensures created.value.ItemCreated? && created.value.reportedByuserId == a && created.value.lost
    ensures claimed.Ok? && claimed.value.ItemClaimed? && !claimed.value.lost && claimed.value.claimedBy == Some(b)
    ensures confirmed.Ok? && confirmed.value.ClaimConfirmed? && confirmed.value.claimConfirmed == Some(true)
    ensures deleted == Ok(ItemDeleted(DeletedMessage)) && left == map[]
  {
    var store := new ItemStore(t0);
    var none := ItemBody(None, None, None, None, None, None, None, None, None);
    var wallet := none.(title := Some("Wallet"), description := Some("black leather"), location := Some("Park Ave"));
    created := store.CreateItem(a, wallet, None, t0);
    var id := created.value.itemId;
    claimed := store.ClaimItem(b, id, none, t0 + 1);
    confirmed := store.ConfirmClaim(a, id, none, t0 + 2);
    deleted := store.DeleteConfirmedItem(b, id);
    left := store.items;
  }

  /** The claimer confirms their own claim: user B claims A's item with `claimConfirmed: true`
      in the body, and can then delete it as its confirmed claimer without A doing anything. */
  method SelfConfirmedClaim(a: Id, b: Id, t0: nat) returns (claimed: Result<ItemReply, ErrorValue>,
      deleted: Result<ItemReply, ErrorValue>, left: map<Id, Item>)
    ensures claimed.Ok? && claimed.value.ItemClaimed? && claimed.value.claimedBy == Some(b)
    ensures deleted == Ok(ItemDeleted(DeletedMessage)) && left == map[]
  {
    var store := new ItemStore(t0);
    var none := ItemBody(None, None, None, None, None, None, None, None, None);
    var wallet := none.(title := Some("Wallet"), description := Some("black leather"), location := Some("Park Ave"));
    var created := store.CreateItem(a, wallet, None, t0);
    var id := created.value.itemId;
    claimed := store.ClaimItem(b, id, none.(claimConfirmed := Some(true)), t0 + 1);
    deleted := store.DeleteConfirmedItem(b, id);
    left := store.items;
  }
}
