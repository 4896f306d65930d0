/** Order intake and the capacity ledger (createOrderInDatabase): the event-wide limit
    check, the order and order-item inserts, and the per-item read-then-write of `sold`.
    There is no per-type capacity check and no rollback of earlier writes. */
module OrderService {
  import opened Common
  import opened Store
  import TicketService

  /** One entry of the `items` argument. */
  datatype ItemRequest = ItemRequest(ticketTypeId: Id, quantity: int, pricePerTicket: real)

  /** The `orderData` argument; `userId` is None where the caller leaves it undefined. */
  datatype OrderRequest = OrderRequest(eventId: Id, userId: Option<string>, totalAmount: real,
                                       items: seq<ItemRequest>)

  /** What the call throws. `LimitExceeded` carries the "Only N tickets remaining" count. */
  datatype OrderError =
    | EventQueryFailed
    | TypesQueryFailed
    | LimitExceeded(remaining: int)
    | OrderInsertFailed
    | ItemsInsertFailed
    | SoldUpdateFailed(ticketTypeId: Id)

  /** The database faults each step may meet; `soldReadFails(k)` and `soldUpdateFails(k)`
      concern the k-th pass of the `sold` loop. A failed read makes getCurrentSoldCount
      answer 0; a failed update is rethrown. */
  datatype OrderFaults = OrderFaults(
    eventQueryFails: bool,
    typesQueryFails: bool,
    orderInsertFails: bool,
    itemsInsertFails: bool,
    soldReadFails: nat -> bool,
    soldUpdateFails: nat -> bool)

  const CompletedStatus := "completed"

  /** JavaScript truthiness of a nullable number: null and 0 are falsy. */
  predicate LimitIsSet(limit: Option<int>) {
    limit.Some? && limit.value != 0
  }

  function SumSold(types: seq<TicketTypeRow>): int {
    if types == [] then 0 else types[0].sold + SumSold(types[1..])
  }

  function TotalQuantity(items: seq<ItemRequest>): int {
    if items == [] then 0 else items[0].quantity + TotalQuantity(items[1..])
  }

  /** `.from('events').select('overall_ticket_limit').eq('id', eventId).single()`. */
  function EventLookup(events: seq<EventRow>, eventId: Id, failed: bool): Option<EventRow> {
    if failed then None else Single(events, (e: EventRow) => e.id == eventId)
  }

  /** The checks before anything is written (orderService.ts, lines 20-43): None lets the order through. */
  function LimitCheck(events: seq<EventRow>, types: seq<TicketTypeRow>, req: OrderRequest,
                      faults: OrderFaults): Option<OrderError>
  {
    match EventLookup(events, req.eventId, faults.eventQueryFails)
    case None => Some(EventQueryFailed)
    case Some(ev) =>
      if !LimitIsSet(ev.overallTicketLimit) then None
      else if faults.typesQueryFails then Some(TypesQueryFailed)
      else
        var limit := ev.overallTicketLimit.value;
        var totalSold := SumSold(TypesOfEvent(types, req.eventId));
        if totalSold + TotalQuantity(req.items) > limit then Some(LimitExceeded(limit - totalSold))
        else None
  }

  /** A set limit rejects exactly the orders that would take the event's total past it,
      reporting how many tickets remain. */
  lemma LimitRejectsOverLimit(events: seq<EventRow>, types: seq<TicketTypeRow>, req: OrderRequest,
                              faults: OrderFaults, ev: EventRow)
    requires EventLookup(events, req.eventId, faults.eventQueryFails) == Some(ev)
    requires LimitIsSet(ev.overallTicketLimit) && !faults.typesQueryFails
    ensures var limit := ev.overallTicketLimit.value;
            var totalSold := SumSold(TypesOfEvent(types, req.eventId));
            LimitCheck(events, types, req, faults) ==
              if totalSold + TotalQuantity(req.items) > limit then Some(LimitExceeded(limit - totalSold))
              else None
  {
  }

  /** The comparison is strict: an order that brings the total exactly to the limit passes. */
  lemma OrderReachingLimitAccepted(events: seq<EventRow>, types: seq<TicketTypeRow>, req: OrderRequest,
                                   faults: OrderFaults, ev: EventRow)
    requires EventLookup(events, req.eventId, faults.eventQueryFails) == Some(ev)
    requires ev.overallTicketLimit.Some? && !faults.typesQueryFails
    requires SumSold(TypesOfEvent(types, req.eventId)) + TotalQuantity(req.items) == ev.overallTicketLimit.value
    ensures LimitCheck(events, types, req, faults) == None
  {
  }

  /** A null or 0 limit skips the event-wide check: no order size is rejected for it. */
  lemma UnsetLimitSkipsCheck(events: seq<EventRow>, types: seq<TicketTypeRow>, req: OrderRequest,
                             faults: OrderFaults, ev: EventRow)
    requires EventLookup(events, req.eventId, faults.eventQueryFails) == Some(ev)
    requires ev.overallTicketLimit == None || ev.overallTicketLimit == Some(0)
    ensures LimitCheck(events, types, req, faults) == None
  {
  }

  /** The `user_id` column: `userId || null`, so an empty string is stored as null too. */
  function UserIdColumn(userId: Option<string>): (r: Option<Id>)
    ensures r.Some? <==> userId.Some? && userId.value != ""
    ensures r.Some? ==> r == userId
  {
    if userId.Some? && userId.value != "" then userId else None
  }

  /** The inserted `orders` row: status 'completed' and the caller's total, unchecked. */
  function NewOrderRow(req: OrderRequest, orderId: Id, now: Timestamp): (o: OrderRow)
    ensures o.id == orderId && o.eventId == req.eventId && o.status == CompletedStatus
    ensures o.totalAmount == req.totalAmount && o.userId == UserIdColumn(req.userId)
  {
    OrderRow(orderId, req.eventId, UserIdColumn(req.userId), req.totalAmount, CompletedStatus,
             None, now, now)
  }

  /** The inserted `order_items` rows: one per requested item, in order. */
  function ItemRows(orderId: Id, items: seq<ItemRequest>): (rows: seq<OrderItemRow>)
    ensures |rows| == |items|
    ensures forall i :: 0 <= i < |items| ==>
              rows[i] == OrderItemRow(orderId, items[i].ticketTypeId, items[i].quantity, items[i].pricePerTicket)
  {
    seq(|items|, i requires 0 <= i < |items| =>
      OrderItemRow(orderId, items[i].ticketTypeId, items[i].quantity, items[i].pricePerTicket))
  }

  /** Reading the new order back by its fresh id finds the one row written: status
      'completed', the caller's total and event, and a user exactly when a non-empty user id
      was given. */
  lemma NewOrderReadsBack(orders: seq<OrderRow>, req: OrderRequest, orderId: Id, now: Timestamp)
    requires forall k :: 0 <= k < |orders| ==> orders[k].id != orderId
    ensures var found := Single(orders + [NewOrderRow(req, orderId, now)], (o: OrderRow) => o.id == orderId);
            found.Some? && found.value.status == CompletedStatus
            && found.value.eventId == req.eventId && found.value.totalAmount == req.totalAmount
            && (found.value.userId.Some? <==> req.userId.Some? && req.userId.value != "")
  {
    var rows := orders + [NewOrderRow(req, orderId, now)];
    assert forall k :: 0 <= k < |orders| ==> rows[k] == orders[k];
    SingleAt(rows, (o: OrderRow) => o.id == orderId, |orders|);
  }

  /** The item an `order_items` row stands for. */
  function RequestOf(row: OrderItemRow): ItemRequest {
    ItemRequest(row.ticketTypeId, row.quantity, row.pricePerTicket)
  }

  /** Selecting `order_items` by the new order's fresh id gives back exactly the requested
      items, in order. */
  lemma ItemsReadBack(orderItems: seq<OrderItemRow>, orderId: Id, items: seq<ItemRequest>)
    requires forall k :: 0 <= k < |orderItems| ==> orderItems[k].orderId != orderId
    ensures var back := Filter(orderItems + ItemRows(orderId, items), (r: OrderItemRow) => r.orderId == orderId);
            |back| == |items| && forall i :: 0 <= i < |items| ==> RequestOf(back[i]) == items[i]
  {
    var p := (r: OrderItemRow) => r.orderId == orderId;
    FilterAppend(orderItems, ItemRows(orderId, items), p);
    FilterNone(orderItems, p);
    FilterAll(ItemRows(orderId, items), p);
  }

  /** `.from('ticket_types').update({sold: v}).eq('id', id)`: every row with that id. */
  function SetSold(types: seq<TicketTypeRow>, id: Id, v: int): seq<TicketTypeRow> {
    seq(|types|, i requires 0 <= i < |types| =>
      if types[i].id == id then types[i].(sold := v) else types[i])
  }

  /** One pass of the `sold` loop: read the count back, then write count + quantity. */
  function BumpSold(types: seq<TicketTypeRow>, item: ItemRequest, readFails: bool): seq<TicketTypeRow> {
    SetSold(types, item.ticketTypeId,
            TicketService.CurrentSoldCount(types, item.ticketTypeId, readFails) + item.quantity)
  }

  /** The ticket types after the first `k` passes of the `sold` loop. */
  function BumpPrefix(types: seq<TicketTypeRow>, items: seq<ItemRequest>, readFails: nat -> bool,
                      k: nat): seq<TicketTypeRow>
    requires k <= |items|
  {
    if k == 0 then types
    else BumpSold(BumpPrefix(types, items, readFails, k - 1), items[k - 1], readFails(k - 1))
  }

  /** Σ quantity over the items that name `id`. */
  function QuantityFor(items: seq<ItemRequest>, id: Id): int {
    if items == [] then 0
    else QuantityFor(items[..|items| - 1], id)
         + (if items[|items| - 1].ticketTypeId == id then items[|items| - 1].quantity else 0)
  }

  /** The least k in [from, n) with f(k), if any. */
  function FirstFailure(f: nat -> bool, from: nat, n: nat): (r: Option<nat>)
    decreases n - from
    ensures r.Some? ==> from <= r.value < n && f(r.value)
    ensures r.Some? ==> forall i :: from <= i < r.value ==> !f(i)
    ensures r.None? ==> forall i :: from <= i < n ==> !f(i)
  {
    if from >= n then None
    else if f(from) then Some(from)
    else FirstFailure(f, from + 1, n)
  }

  lemma FirstFailureAt(f: nat -> bool, n: nat, k: nat)
    requires k < n && f(k) && forall i :: 0 <= i < k ==> !f(i)
    ensures FirstFailure(f, 0, n) == Some(k)
  {
  }

  lemma FirstFailureNone(f: nat -> bool, n: nat)
    requires forall i :: 0 <= i < n ==> !f(i)
    ensures FirstFailure(f, 0, n) == None
  {
  }

  /** One pass of the loop changes `sold` only. */
  lemma BumpSoldKeepsOtherFields(types: seq<TicketTypeRow>, item: ItemRequest, readFails: bool, j: int)
    requires 0 <= j < |types|
    ensures |BumpSold(types, item, readFails)| == |types|
    ensures BumpSold(types, item, readFails)[j] == types[j].(sold := BumpSold(types, item, readFails)[j].sold)
  {
  }

  /** The loop keeps every row but `sold` as it was: same rows, same ids, same capacity. */
  lemma {:induction false} BumpPrefixKeepsOtherFields(types: seq<TicketTypeRow>, items: seq<ItemRequest>,
                                                      readFails: nat -> bool, k: nat, j: int)
    requires k <= |items| && 0 <= j < |types|
    ensures |BumpPrefix(types, items, readFails, k)| == |types|
    ensures BumpPrefix(types, items, readFails, k)[j] ==
              types[j].(sold := BumpPrefix(types, items, readFails, k)[j].sold)
  {
    if k > 0 {
      var before := BumpPrefix(types, items, readFails, k - 1);
      var after := BumpSold(before, items[k - 1], readFails(k - 1));
      assert BumpPrefix(types, items, readFails, k) == after;
      BumpPrefixKeepsOtherFields(types, items, readFails, k - 1, j);
      BumpSoldKeepsOtherFields(before, items[k - 1], readFails(k - 1), j);
    }
  }

  /** Ids never change, so unique ids stay unique. */
  lemma BumpPrefixKeepsIds(types: seq<TicketTypeRow>, items: seq<ItemRequest>, readFails: nat -> bool, k: nat)
    requires k <= |items| && UniqueTypeIds(types)
    ensures |BumpPrefix(types, items, readFails, k)| == |types|
    ensures UniqueTypeIds(BumpPrefix(types, items, readFails, k))
  {
    var after := BumpPrefix(types, items, readFails, k);
    if types != [] {
      BumpPrefixKeepsOtherFields(types, items, readFails, k, 0);
    }
    forall j | 0 <= j < |types| ensures after[j].id == types[j].id {
      BumpPrefixKeepsOtherFields(types, items, readFails, k, j);
    }
  }

  /** Σ quantity over a prefix one longer adds the last item's share. */
  lemma QuantityForSnoc(items: seq<ItemRequest>, k: nat, id: Id)
    requires 0 < k <= |items|
    ensures QuantityFor(items[..k], id)
            == QuantityFor(items[..k - 1], id) + (if items[k - 1].ticketTypeId == id then items[k - 1].quantity else 0)
  {
    assert items[..k][..k - 1] == items[..k - 1];
    assert items[..k][k - 1] == items[k - 1];
  }

  /** With unique ids and a successful read, a pass adds the item's quantity to its own type
      and leaves the others' counts alone. */
  lemma BumpSoldAt(before: seq<TicketTypeRow>, item: ItemRequest, j: int)
    requires UniqueTypeIds(before) && 0 <= j < |before|
    ensures |BumpSold(before, item, false)| == |before|
    ensures BumpSold(before, item, false)[j].sold
            == before[j].sold + (if item.ticketTypeId == before[j].id then item.quantity else 0)
  {
    if item.ticketTypeId == before[j].id {
      TicketService.CurrentSoldCountStored(before, j);
    }
  }

  /** With unique ids and no failed read, each type ends with its old `sold` plus the
      quantities of all items naming it: items for the same type accumulate, types no item
      names keep their count, and capacity (`quantity`) is never consulted. */
  lemma {:induction false} SoldAccumulates(types: seq<TicketTypeRow>, items: seq<ItemRequest>,
                                           readFails: nat -> bool, k: nat, j: int)
    requires UniqueTypeIds(types)
    requires k <= |items| && 0 <= j < |types|
    requires forall i :: 0 <= i < k ==> !readFails(i)
    ensures |BumpPrefix(types, items, readFails, k)| == |types|
    ensures BumpPrefix(types, items, readFails, k)[j].sold == types[j].sold + QuantityFor(items[..k], types[j].id)
  {
    if k > 0 {
      var before := BumpPrefix(types, items, readFails, k - 1);
      BumpPrefixKeepsIds(types, items, readFails, k - 1);
      BumpPrefixKeepsOtherFields(types, items, readFails, k - 1, j);
      SoldAccumulates(types, items, readFails, k - 1, j);
      QuantityForSnoc(items, k, types[j].id);
      BumpSoldAt(before, items[k - 1], j);
    }
  }

  /** A failed read of `sold` (getCurrentSoldCount answering 0) overwrites the stored count
      with the item's quantity alone. */
  lemma FailedReadResetsSold(types: seq<TicketTypeRow>, item: ItemRequest, j: int)
    requires 0 <= j < |types| && types[j].id == item.ticketTypeId
    ensures BumpSold(types, item, true)[j].sold == item.quantity
  {
  }

  /** `sold` can pass capacity: a type with capacity 1 and 1 sold, in an event without a
      limit, accepts a further order of 1 and ends with `sold` = 2. */
  lemma SoldCanExceedCapacity()
    ensures var ev := EventRow("e", "Gig", None, "2030-01-01T20:00", "Hall", None, None, "u", 0, 0);
            var t := TicketTypeRow("t", "e", "Standard", 10.0, 1, 1, None, false, None, 0);
            var req := OrderRequest("e", None, 10.0, [ItemRequest("t", 1, 10.0)]);
            var faults := OrderFaults(false, false, false, false, _ => false, _ => false);
            LimitCheck([ev], [t], req, faults) == None
            && BumpPrefix([t], req.items, faults.soldReadFails, 1)[0].sold == 2
            && BumpPrefix([t], req.items, faults.soldReadFails, 1)[0].quantity == 1
  {
    var ev := EventRow("e", "Gig", None, "2030-01-01T20:00", "Hall", None, None, "u", 0, 0);
    var t := TicketTypeRow("t", "e", "Standard", 10.0, 1, 1, None, false, None, 0);
    var req := OrderRequest("e", None, 10.0, [ItemRequest("t", 1, 10.0)]);
    var faults := OrderFaults(false, false, false, false, _ => false, _ => false);
    SingleAt([ev], (e: EventRow) => e.id == req.eventId, 0);
    SoldAccumulates([t], req.items, faults.soldReadFails, 1, 0);
    assert req.items[..1] == req.items;
  }

  /** One pass of the `sold` loop on the database: only `ticket_types` changes. */
  method WriteSold(db: Database, item: ItemRequest, readFails: bool)
    modifies db
    ensures db.ticketTypes == BumpSold(old(db.ticketTypes), item, readFails)
    ensures db.events == old(db.events) && db.tickets == old(db.tickets)
    ensures db.orders == old(db.orders) && db.orderItems == old(db.orderItems)
  {
    db.ticketTypes := BumpSold(db.ticketTypes, item, readFails);
  }

  /** The `sold` loop (lines 74-86): item by item, read the count back and write count +
      quantity; the first failed update stops the loop and is reported by its index. */
  method RecordSold(db: Database, items: seq<ItemRequest>, readFails: nat -> bool, updateFails: nat -> bool)
    returns (failure: Option<nat>)
    modifies db
    ensures db.events == old(db.events) && db.tickets == old(db.tickets)
    ensures db.orders == old(db.orders) && db.orderItems == old(db.orderItems)
    ensures failure.Some? ==> failure.value < |items| && updateFails(failure.value)
    ensures var n := if failure.Some? then failure.value else |items|;
            (forall i :: 0 <= i < n ==> !updateFails(i))
            && db.ticketTypes == BumpPrefix(old(db.ticketTypes), items, readFails, n)
  {
    ghost var before := db.ticketTypes;
    for k := 0 to |items|
      invariant db.ticketTypes == BumpPrefix(before, items, readFails, k)
      invariant forall i :: 0 <= i < k ==> !updateFails(i)
      invariant db.events == old(db.events) && db.tickets == old(db.tickets)
      invariant db.orders == old(db.orders) && db.orderItems == old(db.orderItems)
    {
      if updateFails(k) {
        return Some(k);
      }
      WriteSold(db, items[k], readFails(k));
    }
    return None;
  }

  /** createOrderInDatabase. Writes happen in the source's order (order, items, then `sold`
      item by item) and a failure after the order insert is rethrown with the earlier writes
      left in place. `orderId` and `now` stand for the database-generated id and time. */
  method CreateOrderInDatabase(db: Database, req: OrderRequest, orderId: Id, now: Timestamp,
                               faults: OrderFaults) returns (r: Result<Id, OrderError>)
    modifies db
    ensures db.events == old(db.events) && db.tickets == old(db.tickets)
    ensures var pre := LimitCheck(old(db.events), old(db.ticketTypes), req, faults);
            pre.Some? ==> r == Err(pre.value) && db.orders == old(db.orders)
                          && db.orderItems == old(db.orderItems) && db.ticketTypes == old(db.ticketTypes)
    ensures var pre := LimitCheck(old(db.events), old(db.ticketTypes), req, faults);
            pre.None? && faults.orderInsertFails ==>
              r == Err(OrderInsertFailed) && db.orders == old(db.orders)
              && db.orderItems == old(db.orderItems) && db.ticketTypes == old(db.ticketTypes)
    ensures var pre := LimitCheck(old(db.events), old(db.ticketTypes), req, faults);
            pre.None? && !faults.orderInsertFails ==>
              db.orders == old(db.orders) + [NewOrderRow(req, orderId, now)]
    ensures var pre := LimitCheck(old(db.events), old(db.ticketTypes), req, faults);
            pre.None? && !faults.orderInsertFails && faults.itemsInsertFails ==>
              r == Err(ItemsInsertFailed) && db.orderItems == old(db.orderItems)
              && db.ticketTypes == old(db.ticketTypes)
    ensures var pre := LimitCheck(old(db.events), old(db.ticketTypes), req, faults);
            pre.None? && !faults.orderInsertFails && !faults.itemsInsertFails ==>
              db.orderItems == old(db.orderItems) + ItemRows(orderId, req.items)
              && match FirstFailure(faults.soldUpdateFails, 0, |req.items|)
                 case Some(k) =>
                   r == Err(SoldUpdateFailed(req.items[k].ticketTypeId))
                   && db.ticketTypes == BumpPrefix(old(db.ticketTypes), req.items, faults.soldReadFails, k)
                 case None =>
                   r == Ok(orderId)
                   && db.ticketTypes == BumpPrefix(old(db.ticketTypes), req.items, faults.soldReadFails, |req.items|)
  {
    var pre := LimitCheck(db.events, db.ticketTypes, req, faults);
    if pre.Some? {
      return Err(pre.value);
    }
    if faults.orderInsertFails {
      return Err(OrderInsertFailed);
    }
    db.orders := db.orders + [NewOrderRow(req, orderId, now)];
    if faults.itemsInsertFails {
      return Err(ItemsInsertFailed);
    }
    db.orderItems := db.orderItems + ItemRows(orderId, req.items);
    var failure := RecordSold(db, req.items, faults.soldReadFails, faults.soldUpdateFails);
    if failure.Some? {
      FirstFailureAt(faults.soldUpdateFails, |req.items|, failure.value);
      return Err(SoldUpdateFailed(req.items[failure.value].ticketTypeId));
    }
    FirstFailureNone(faults.soldUpdateFails, |req.items|);
    return Ok(orderId);
  }
}
