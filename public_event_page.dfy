/** The public event page: the visitor's ticket selection and unlocked types, the totals
    shown, the order built on purchase, and the rules that decide which controls appear. */
module PublicEventPage {
  import opened Common
  import opened Store
  import opened EventHelpers
  import opened OrderService

  // ---------------------------------------------------------------------------
  // Lookups over the event's ticket types
  // ---------------------------------------------------------------------------

  /** `event.ticket_types?.find(t => t.id === id)`. */
  function FindType(types: seq<TicketTypeView>, id: string): (r: Option<TicketTypeView>)
    ensures r.None? <==> forall k :: 0 <= k < |types| ==> types[k].id != id
    ensures r.Some? ==> r.value in types && r.value.id == id
  {
    Find(types, (t: TicketTypeView) => t.id, id)
  }

  /** `ticket?.price || 0`: the type's price, 0 when the id is unknown. */
  function PriceOf(types: seq<TicketTypeView>, id: string): (p: real)
    ensures FindType(types, id).None? ==> p == 0.0
    ensures FindType(types, id).Some? ==> p == FindType(types, id).value.price
  {
    match FindType(types, id)
    case Some(t) => t.price
    case None => 0.0
  }

  /** Seats left for sale on a type. */
  function Available(t: TicketTypeView): int {
    t.quantity - t.sold
  }

  // ---------------------------------------------------------------------------
  // The selection map and its totals
  // ---------------------------------------------------------------------------

  predicate NonNegative(selected: seq<Entry<int>>) {
    forall i :: 0 <= i < |selected| ==> selected[i].value >= 0
  }

  /** What one selection entry adds to the total cost: price × quantity, 0 for an unknown id. */
  function EntryCost(types: seq<TicketTypeView>, e: Entry<int>): real {
    match FindType(types, e.key)
    case Some(t) => t.price * e.value as real
    case None => 0.0
  }

  /** getTotalCost: the reduce over `Object.entries(selectedTickets)`. */
  function TotalCost(types: seq<TicketTypeView>, selected: seq<Entry<int>>): (r: real)
    ensures types == [] ==> r == 0.0
  {
    if selected == [] then 0.0 else EntryCost(types, selected[0]) + TotalCost(types, selected[1..])
  }

  /** getTotalSelectedTickets. */
  function TotalSelected(selected: seq<Entry<int>>): (r: int)
    ensures NonNegative(selected) ==> r >= 0
  {
    SumIntNonNegative(Values(selected));
    SumInt(Values(selected))
  }

  /** A selected id that no type carries adds nothing to the cost. */
  lemma {:induction false} UnknownIdCostsNothing(types: seq<TicketTypeView>, selected: seq<Entry<int>>,
                                                 id: string, q: int)
    requires FindType(types, id).None?
    ensures TotalCost(types, selected + [Entry(id, q)]) == TotalCost(types, selected)
  {
    if selected == [] {
      assert selected + [Entry(id, q)] == [Entry(id, q)];
    } else {
      assert (selected + [Entry(id, q)])[1..] == selected[1..] + [Entry(id, q)];
      UnknownIdCostsNothing(types, selected[1..], id, q);
    }
  }

  // ---------------------------------------------------------------------------
  // The order built by handlePurchase
  // ---------------------------------------------------------------------------

  /** The entries with quantity > 0, each priced at its type's current price. */
  function OrderItems(types: seq<TicketTypeView>, selected: seq<Entry<int>>): (items: seq<ItemRequest>)
    ensures |items| <= |selected|
    ensures forall i :: 0 <= i < |items| ==>
              items[i].quantity > 0 && items[i].pricePerTicket == PriceOf(types, items[i].ticketTypeId)
  {
    if selected == [] then []
    else
      var e := selected[0];
      (if e.value > 0 then [ItemRequest(e.key, e.value, PriceOf(types, e.key))] else [])
      + OrderItems(types, selected[1..])
  }

  /** Every order item carries the id and quantity of a selection entry. */
  lemma {:induction false} ItemsComeFromEntries(types: seq<TicketTypeView>, selected: seq<Entry<int>>, i: int)
    requires 0 <= i < |OrderItems(types, selected)|
    ensures var item := OrderItems(types, selected)[i];
            Entry(item.ticketTypeId, item.quantity) in selected
  {
    var e := selected[0];
    var rest := OrderItems(types, selected[1..]);
    if e.value > 0 {
      if i > 0 {
        assert OrderItems(types, selected)[i] == rest[i - 1];
        ItemsComeFromEntries(types, selected[1..], i - 1);
      }
    } else {
      assert OrderItems(types, selected) == rest;
      ItemsComeFromEntries(types, selected[1..], i);
    }
  }

  /** Every entry with a positive quantity becomes an order item with that id and quantity. */
  lemma {:induction false} PositiveEntriesBecomeItems(types: seq<TicketTypeView>, selected: seq<Entry<int>>, j: int)
    requires 0 <= j < |selected| && selected[j].value > 0
    ensures ItemRequest(selected[j].key, selected[j].value, PriceOf(types, selected[j].key))
            in OrderItems(types, selected)
  {
    if j > 0 {
      assert selected[1..][j - 1] == selected[j];
      PositiveEntriesBecomeItems(types, selected[1..], j - 1);
    }
  }

  /** Σ quantity × pricePerTicket over the items. */
  function ItemsAmount(items: seq<ItemRequest>): real {
    if items == [] then 0.0 else items[0].quantity as real * items[0].pricePerTicket + ItemsAmount(items[1..])
  }

  /** An entry costs what the item made from it amounts to. */
  lemma EntryCostIsItemAmount(types: seq<TicketTypeView>, e: Entry<int>)
    requires e.value >= 0
    ensures EntryCost(types, e) == if e.value > 0 then e.value as real * PriceOf(types, e.key) else 0.0
  {
    match FindType(types, e.key)
    case Some(t) =>
      assert PriceOf(types, e.key) == t.price;
      assert EntryCost(types, e) == t.price * e.value as real;
      if e.value == 0 {
        assert t.price * e.value as real == t.price * 0.0 == 0.0;
      } else {
        assert t.price * e.value as real == e.value as real * t.price;
      }
    case None =>
  }

  lemma NonNegativeTail(selected: seq<Entry<int>>)
    requires selected != [] && NonNegative(selected)
    ensures NonNegative(selected[1..])
  {
    forall i | 0 <= i < |selected| - 1 ensures selected[1..][i].value >= 0 {
      assert selected[1..][i] == selected[i + 1];
    }
  }

  /** The items of a selection amount to the first entry's share plus the rest's items. */
  lemma ItemsAmountCons(types: seq<TicketTypeView>, selected: seq<Entry<int>>)
    requires selected != []
    ensures ItemsAmount(OrderItems(types, selected))
            == (if selected[0].value > 0 then selected[0].value as real * PriceOf(types, selected[0].key) else 0.0)
               + ItemsAmount(OrderItems(types, selected[1..]))
  {
    var e := selected[0];
    var tailItems := OrderItems(types, selected[1..]);
    if e.value > 0 {
      var items := [ItemRequest(e.key, e.value, PriceOf(types, e.key))] + tailItems;
      assert items[1..] == tailItems;
    } else {
      assert OrderItems(types, selected) == tailItems;
    }
  }

  /** With no negative selection, the cost shown equals the amount of the items sent: zero
      entries cost nothing, and unknown ids are priced 0 on both sides. */
  lemma {:induction false} TotalCostMatchesItems(types: seq<TicketTypeView>, selected: seq<Entry<int>>)
    requires NonNegative(selected)
    ensures TotalCost(types, selected) == ItemsAmount(OrderItems(types, selected))
  {
    if selected != [] {
      NonNegativeTail(selected);
      TotalCostMatchesItems(types, selected[1..]);
      EntryCostIsItemAmount(types, selected[0]);
      ItemsAmountCons(types, selected);
    }
  }

  /** With no negative selection, the total selected is 0 exactly when no item would be sent. */
  lemma {:induction false} NothingSelectedIffNoItems(types: seq<TicketTypeView>, selected: seq<Entry<int>>)
    requires NonNegative(selected)
    ensures TotalSelected(selected) == 0 <==> OrderItems(types, selected) == []
  {
    if selected != [] {
      NothingSelectedIffNoItems(types, selected[1..]);
      var vs := Values(selected);
      assert vs[1..] == Values(selected[1..]);
      SumIntNonNegative(vs[1..]);
    }
  }

  /** handlePurchase before the call: nothing when no ticket is selected, otherwise the order
      for this event with the items and the cost shown. The page sends no user id. */
  function PurchaseRequest(eventId: Id, types: seq<TicketTypeView>, selected: seq<Entry<int>>): (r: Option<OrderRequest>)
    ensures r.None? <==> TotalSelected(selected) == 0
    ensures r.Some? ==> r.value.eventId == eventId && r.value.userId.None?
                        && r.value.items == OrderItems(types, selected)
                        && r.value.totalAmount == TotalCost(types, selected)
  {
    if TotalSelected(selected) == 0 then None
    else Some(OrderRequest(eventId, None, TotalCost(types, selected), OrderItems(types, selected)))
  }

  /** A purchase that goes ahead sends at least one item, and its total is what the items add up to. */
  lemma PurchaseRequestConsistent(eventId: Id, types: seq<TicketTypeView>, selected: seq<Entry<int>>)
    requires NonNegative(selected) && PurchaseRequest(eventId, types, selected).Some?
    ensures var req := PurchaseRequest(eventId, types, selected).value;
            req.items != [] && req.totalAmount == ItemsAmount(req.items)
  {
    NothingSelectedIffNoItems(types, selected);
    TotalCostMatchesItems(types, selected);
  }

  // ---------------------------------------------------------------------------
  // Unlocking and the quantity controls
  // ---------------------------------------------------------------------------

  /** `!ticket.is_password_protected || unlockedTickets[ticket.id]`. */
  predicate Unlocked(unlocked: seq<Entry<bool>>, t: TicketTypeView) {
    !t.isPasswordProtected || Lookup(unlocked, t.id) == Some(true)
  }

  /** Setting a flag to true never locks a type that was unlocked, and unlocks its own type. */
  lemma UnlockIsMonotone(unlocked: seq<Entry<bool>>, id: string, t: TicketTypeView)
    requires UniqueKeys(unlocked)
    ensures Unlocked(unlocked, t) ==> Unlocked(Put(unlocked, id, true), t)
    ensures t.id == id ==> Unlocked(Put(unlocked, id, true), t)
  {
    PutProperties(unlocked, id, true);
  }

  /** The quantity buttons appear only when seats are left and the type is unlocked. */
  predicate ShowsQuantityControls(unlocked: seq<Entry<bool>>, t: TicketTypeView) {
    Available(t) > 0 && Unlocked(unlocked, t)
  }

  /** The + button is disabled once the selection reaches what is available. */
  predicate IncrementEnabled(selected: seq<Entry<int>>, t: TicketTypeView) {
    ValueOrZero(selected, t.id) < Available(t)
  }

  /** Pressing + while it is enabled never selects more than is available. The handler itself
      does not check; only the disabled button stands in the way. */
  lemma IncrementStaysWithinAvailable(selected: seq<Entry<int>>, t: TicketTypeView)
    requires UniqueKeys(selected) && NonNegative(selected) && IncrementEnabled(selected, t)
    ensures ValueOrZero(Put(selected, t.id, Max(0, ValueOrZero(selected, t.id) + 1)), t.id) <= Available(t)
  {
    PutProperties(selected, t.id, Max(0, ValueOrZero(selected, t.id) + 1));
    if HasKey(selected, t.id) {
      var i :| 0 <= i < |selected| && selected[i] == Entry(t.id, ValueOrZero(selected, t.id));
    }
  }

  /** The page's state. */
  class Page {
    const eventId: Id
    const types: seq<TicketTypeView>
    var selected: seq<Entry<int>>
    var unlocked: seq<Entry<bool>>

    ghost predicate Valid()
      reads this
    {
      UniqueKeys(selected) && UniqueKeys(unlocked) && NonNegative(selected)
      && forall i :: 0 <= i < |unlocked| ==> unlocked[i].value
    }

    constructor (eventId: Id, types: seq<TicketTypeView>)
      ensures Valid() && this.eventId == eventId && this.types == types
      ensures selected == [] && unlocked == []
    {
      this.eventId := eventId;
      this.types := types;
      selected := [];
      unlocked := [];
    }

    /** handleTicketQuantityChange: the stored quantity is clamped at 0. */
    method ChangeQuantity(id: string, quantity: int)
      requires Valid()
      modifies this
      ensures Valid() && unlocked == old(unlocked)
      ensures selected == Put(old(selected), id, Max(0, quantity))
      ensures ValueOrZero(selected, id) == Max(0, quantity)
      ensures forall k :: k != id ==> Lookup(selected, k) == Lookup(old(selected), k)
    {
      PutProperties(selected, id, Max(0, quantity));
      selected := Put(selected, id, Max(0, quantity));
    }

    /** handleTicketUnlock: `verified` is the answer of the password check, None when it
        throws; the flag is set only on a true answer. */
    method Unlock(id: string, verified: Option<bool>) returns (ok: bool)
      requires Valid()
      modifies this
      ensures Valid() && selected == old(selected)
      ensures ok <==> verified == Some(true)
      ensures unlocked == if ok then Put(old(unlocked), id, true) else old(unlocked)
    {
      ok := verified == Some(true);
      if ok {
        PutProperties(unlocked, id, true);
        unlocked := Put(unlocked, id, true);
      }
    }

    /** handlePurchase: with nothing selected no order is attempted; otherwise the order is
        placed and, on success, the selection is cleared. */
    method Purchase(db: Database, orderId: Id, now: Timestamp, faults: OrderFaults)
      returns (outcome: Option<Result<Id, OrderError>>)
      requires Valid()
      modifies this, db
      ensures Valid() && unlocked == old(unlocked)
      ensures outcome.None? <==> PurchaseRequest(eventId, types, old(selected)).None?
      ensures outcome.None? ==> db.orders == old(db.orders) && db.orderItems == old(db.orderItems)
                                && db.ticketTypes == old(db.ticketTypes)
      ensures outcome.Some? && outcome.value.Ok? ==> selected == []
      ensures (outcome.None? || outcome.value.Err?) ==> selected == old(selected)
      ensures db.events == old(db.events) && db.tickets == old(db.tickets)
      ensures outcome.Some? ==>
                var req := PurchaseRequest(eventId, types, old(selected)).value;
                LimitCheck(old(db.events), old(db.ticketTypes), req, faults).Some? || faults.orderInsertFails ==>
                  outcome.value.Err? && db.orders == old(db.orders) && db.orderItems == old(db.orderItems)
                  && db.ticketTypes == old(db.ticketTypes)
      ensures outcome.Some? ==>
                var req := PurchaseRequest(eventId, types, old(selected)).value;
                LimitCheck(old(db.events), old(db.ticketTypes), req, faults).None? && !faults.orderInsertFails ==>
                  db.orders == old(db.orders) + [NewOrderRow(req, orderId, now)]
      ensures outcome.Some? && outcome.value.Ok? ==>
                var req := PurchaseRequest(eventId, types, old(selected)).value;
                outcome.value.value == orderId
                && db.orderItems == old(db.orderItems) + ItemRows(orderId, req.items)
                && db.ticketTypes == BumpPrefix(old(db.ticketTypes), req.items, faults.soldReadFails, |req.items|)
    {
      var req := PurchaseRequest(eventId, types, selected);
      if req.None? {
        return None;
      }
      var r := CreateOrderInDatabase(db, req.value, orderId, now, faults);
      if r.Ok? {
        selected := [];
      }
      return Some(r);
    }
  }
}
