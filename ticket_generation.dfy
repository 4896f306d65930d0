/** Ticket issuance (createTicketsForOrder): every order item is expanded into one ticket
    row per unit, each carrying a ticket number and the QR payload `number|orderId|typeId`.
    A failed insert is skipped; nothing stops a second call from minting a second set. */
module TicketGeneration {
  import opened Common
  import opened Store

  /** What the database and the environment answer for one unit: the `generate_ticket_number`
      RPC result, the clock and random text of the fallback number, the generated row id and
      time, and whether the insert succeeds. */
  datatype MintAttempt = MintAttempt(
    rpcNumber: Option<string>,
    clockText: string,
    randomSuffix: string,
    ticketId: Id,
    createdAt: Timestamp,
    insertOk: bool)

  datatype GenerationError = FetchOrderFailed

  const Separator: char := '|'

  /** `ticketNumberData || \`TKT-${Date.now()}-${random}\``: an empty or missing RPC answer
      falls back to the locally made number. */
  function TicketNumber(a: MintAttempt): (n: string)
    ensures n != []
    ensures a.rpcNumber.Some? && a.rpcNumber.value != [] ==> n == a.rpcNumber.value
  {
    if a.rpcNumber.Some? && a.rpcNumber.value != [] then a.rpcNumber.value
    else "TKT-" + a.clockText + "-" + a.randomSuffix
  }

  /** The QR payload of a ticket. */
  function QrPayload(ticketNumber: string, orderId: Id, ticketTypeId: Id): string {
    ticketNumber + [Separator] + orderId + [Separator] + ticketTypeId
  }

  /** `s.split('|')`. */
  function Split(s: string): (parts: seq<string>)
    ensures |parts| >= 1
  {
    if s == [] then [[]]
    else if s[0] == Separator then [[]] + Split(s[1..])
    else
      var rest := Split(s[1..]);
      [[s[0]] + rest[0]] + rest[1..]
  }

  /** `parts.join('|')`. */
  function Join(parts: seq<string>): string
    requires |parts| >= 1
  {
    if |parts| == 1 then parts[0] else parts[0] + [Separator] + Join(parts[1..])
  }

  /** Splitting and joining again gives back any string. */
  lemma {:induction false} JoinSplit(s: string)
    ensures Join(Split(s)) == s
  {
    if s != [] {
      JoinSplit(s[1..]);
      var rest := Split(s[1..]);
      if s[0] == Separator {
        assert Join(Split(s)) == [] + [Separator] + Join(rest);
      } else if |rest| == 1 {
        assert s == [s[0]] + s[1..];
      } else {
        assert Split(s)[1..] == rest[1..];
        assert s == [s[0]] + s[1..];
      }
    }
  }

  /** A part without separators is split off whole. */
  lemma {:induction false} SplitFirst(a: string, b: string)
    requires Separator !in a
    ensures Split(a + [Separator] + b) == [a] + Split(b)
  {
    if a != [] {
      assert (a + [Separator] + b)[1..] == a[1..] + [Separator] + b;
      SplitFirst(a[1..], b);
      assert [a[0]] + a[1..] == a;
    } else {
      assert a + [Separator] + b == [Separator] + b;
    }
  }

  lemma {:induction false} SplitNone(a: string)
    requires Separator !in a
    ensures Split(a) == [a]
  {
    if a != [] {
      SplitNone(a[1..]);
      assert [a[0]] + a[1..] == a;
    }
  }

  /** The payload joins its three parts, and splitting it recovers them when none holds a
      separator. */
  lemma QrPayloadRoundTrip(ticketNumber: string, orderId: Id, ticketTypeId: Id)
    requires Separator !in ticketNumber && Separator !in orderId && Separator !in ticketTypeId
    ensures Split(QrPayload(ticketNumber, orderId, ticketTypeId)) == [ticketNumber, orderId, ticketTypeId]
    ensures Join([ticketNumber, orderId, ticketTypeId]) == QrPayload(ticketNumber, orderId, ticketTypeId)
  {
    var tail := orderId + [Separator] + ticketTypeId;
    assert QrPayload(ticketNumber, orderId, ticketTypeId) == ticketNumber + [Separator] + tail;
    SplitFirst(ticketNumber, tail);
    SplitFirst(orderId, ticketTypeId);
    SplitNone(ticketTypeId);
    assert [ticketNumber, orderId, ticketTypeId][1..] == [orderId, ticketTypeId];
    assert [orderId, ticketTypeId][1..] == [ticketTypeId];
    assert Join([orderId, ticketTypeId]) == tail;
    assert Join([ticketNumber, orderId, ticketTypeId]) == ticketNumber + [Separator] + tail;
  }

  /** The order's items, as the `order_items(...)` join returns them. */
  function ItemsOfOrder(items: seq<OrderItemRow>, orderId: Id): seq<OrderItemRow> {
    Filter(items, (i: OrderItemRow) => i.orderId == orderId)
  }

  function Repeat(id: Id, n: nat): seq<Id> {
    seq(n, _ => id)
  }

  /** The ticket type of every unit, item by item and then unit by unit; a quantity of 0 or
      less contributes no unit. */
  function Plan(items: seq<OrderItemRow>): seq<Id> {
    if items == [] then []
    else
      var last := items[|items| - 1];
      Plan(items[..|items| - 1]) + Repeat(last.ticketTypeId, Max(0, last.quantity))
  }

  /** Σ max(0, quantity) over the items. */
  function Units(items: seq<OrderItemRow>): int {
    if items == [] then 0 else Max(0, items[0].quantity) + Units(items[1..])
  }

  lemma {:induction false} UnitsAppend(a: seq<OrderItemRow>, b: seq<OrderItemRow>)
    ensures Units(a + b) == Units(a) + Units(b)
  {
    if a == [] {
      assert a + b == b;
    } else {
      assert (a + b)[1..] == a[1..] + b;
      UnitsAppend(a[1..], b);
    }
  }

  /** There is one insert attempt per unit ordered: Σ max(0, quantity) attempts. */
  lemma {:induction false} PlanLength(items: seq<OrderItemRow>)
    ensures |Plan(items)| == Units(items)
  {
    if items != [] {
      var init := items[..|items| - 1];
      var last := items[|items| - 1];
      PlanLength(init);
      assert items == init + [last];
      UnitsAppend(init, [last]);
    }
  }

  /** The row the k-th attempt inserts for a unit of type `ticketTypeId`: unused, no scan time. */
  function TicketFor(a: MintAttempt, orderId: Id, ticketTypeId: Id): TicketRow {
    var n := TicketNumber(a);
    TicketRow(a.ticketId, orderId, ticketTypeId, n, QrPayload(n, orderId, ticketTypeId), false, None, a.createdAt)
  }

  /** The rows inserted for the units `plan`, attempt k using `mint(k)`; failed inserts add none. */
  function Minted(plan: seq<Id>, orderId: Id, mint: nat -> MintAttempt): seq<TicketRow> {
    if plan == [] then []
    else
      var k := |plan| - 1;
      Minted(plan[..k], orderId, mint)
      + (if mint(k).insertOk then [TicketFor(mint(k), orderId, plan[k])] else [])
  }

  /** At most one row per unit, and every row belongs to the order, is of a planned type,
      starts unused and carries the QR payload of its own number, order and type. */
  lemma {:induction false} MintedRows(plan: seq<Id>, orderId: Id, mint: nat -> MintAttempt)
    ensures |Minted(plan, orderId, mint)| <= |plan|
    ensures var rows := Minted(plan, orderId, mint);
            forall j :: 0 <= j < |rows| ==>
              rows[j].orderId == orderId && rows[j].ticketTypeId in plan && !rows[j].isUsed
              && rows[j].qrCode == QrPayload(rows[j].ticketNumber, orderId, rows[j].ticketTypeId)
  {
    if plan != [] {
      var k := |plan| - 1;
      var init := Minted(plan[..k], orderId, mint);
      MintedRows(plan[..k], orderId, mint);
      var rows := Minted(plan, orderId, mint);
      forall j | 0 <= j < |rows|
        ensures rows[j].orderId == orderId && rows[j].ticketTypeId in plan && !rows[j].isUsed
                && rows[j].qrCode == QrPayload(rows[j].ticketNumber, orderId, rows[j].ticketTypeId)
      {
        if j < |init| {
          assert rows[j] == init[j];
          assert init[j].ticketTypeId in plan[..k];
        } else {
          assert rows[j] == TicketFor(mint(k), orderId, plan[k]);
        }
      }
    }
  }

  function Ids(rows: seq<TicketRow>): seq<Id> {
    seq(|rows|, k requires 0 <= k < |rows| => rows[k].id)
  }

  /** When every insert succeeds, each unit yields exactly one ticket. */
  lemma {:induction false} MintedAllSucceed(plan: seq<Id>, orderId: Id, mint: nat -> MintAttempt)
    requires forall k :: 0 <= k < |plan| ==> mint(k).insertOk
    ensures |Minted(plan, orderId, mint)| == |plan|
  {
    if plan != [] {
      var k := |plan| - 1;
      MintedAllSucceed(plan[..k], orderId, mint);
      assert mint(k).insertOk;
    }
  }

  /** When every insert succeeds, the tickets come in unit order: the j-th is the j-th
      attempt's row for the j-th unit. */
  lemma {:induction false} MintedInUnitOrder(plan: seq<Id>, orderId: Id, mint: nat -> MintAttempt, j: int)
    requires forall k :: 0 <= k < |plan| ==> mint(k).insertOk
    requires 0 <= j < |plan|
    ensures |Minted(plan, orderId, mint)| == |plan|
    ensures Minted(plan, orderId, mint)[j] == TicketFor(mint(j), orderId, plan[j])
  {
    MintedAllSucceed(plan, orderId, mint);
    var k := |plan| - 1;
    var m := Minted(plan[..k], orderId, mint);
    assert mint(k).insertOk;
    assert Minted(plan, orderId, mint) == m + [TicketFor(mint(k), orderId, plan[k])];
    if j < k {
      MintedInUnitOrder(plan[..k], orderId, mint, j);
      assert plan[..k][j] == plan[j];
    }
  }

  /** `.from('orders').select(...).eq('id', orderId).single()`. */
  function OrderLookup(orders: seq<OrderRow>, orderId: Id, fetchFails: bool): Option<OrderRow> {
    if fetchFails then None else Single(orders, (o: OrderRow) => o.id == orderId)
  }

  /** One more unit of type `id` adds the row of its attempt when the insert succeeds. */
  lemma MintedSnoc(units: seq<Id>, id: Id, orderId: Id, mint: nat -> MintAttempt)
    ensures Minted(units + [id], orderId, mint)
            == Minted(units, orderId, mint)
               + (if mint(|units|).insertOk then [TicketFor(mint(|units|), orderId, id)] else [])
  {
    assert (units + [id])[..|units|] == units;
  }

  lemma RepeatSnoc(id: Id, u: nat)
    ensures Repeat(id, u + 1) == Repeat(id, u) + [id]
  {
  }

  lemma IdsAppend(rows: seq<TicketRow>, more: seq<TicketRow>)
    ensures Ids(rows + more) == Ids(rows) + Ids(more)
  {
  }

  /** One attempt of the inner loop (lines 110-155): the ticket number, the QR payload and the
      insert; a failed insert adds no row and no id. */
  method InsertTicket(db: Database, orderId: Id, ticketTypeId: Id, attempt: MintAttempt, ids: seq<Id>)
    returns (next: seq<Id>)
    modifies db
    ensures db.tickets == old(db.tickets) + (if attempt.insertOk then [TicketFor(attempt, orderId, ticketTypeId)] else [])
    ensures next == ids + Ids(if attempt.insertOk then [TicketFor(attempt, orderId, ticketTypeId)] else [])
    ensures db.events == old(db.events) && db.ticketTypes == old(db.ticketTypes)
    ensures db.orders == old(db.orders) && db.orderItems == old(db.orderItems)
  {
    var ticketNumber := TicketNumber(attempt);
    var qrCode := QrPayload(ticketNumber, orderId, ticketTypeId);
    next := ids;
    if attempt.insertOk {
      var ticket := TicketRow(attempt.ticketId, orderId, ticketTypeId, ticketNumber, qrCode,
                              false, None, attempt.createdAt);
      db.tickets := db.tickets + [ticket];
      next := next + [ticket.id];
    }
  }

  /** The inner loop (lines 109-156): `quantity` attempts for one item, numbered from `k`.
      `units` are the units attempted before this item and `base` the rows before them. */
  method MintItem(db: Database, orderId: Id, item: OrderItemRow, mint: nat -> MintAttempt, k: nat,
                  ticketIds: seq<Id>, ghost units: seq<Id>, ghost base: seq<TicketRow>)
    returns (next: nat, ids: seq<Id>)
    modifies db
    requires k == |units|
    requires db.tickets == base + Minted(units, orderId, mint) && ticketIds == Ids(Minted(units, orderId, mint))
    ensures next == |units + Repeat(item.ticketTypeId, Max(0, item.quantity))|
    ensures db.tickets == base + Minted(units + Repeat(item.ticketTypeId, Max(0, item.quantity)), orderId, mint)
    ensures ids == Ids(Minted(units + Repeat(item.ticketTypeId, Max(0, item.quantity)), orderId, mint))
    ensures db.events == old(db.events) && db.ticketTypes == old(db.ticketTypes)
    ensures db.orders == old(db.orders) && db.orderItems == old(db.orderItems)
  {
    next, ids := k, ticketIds;
    var u := 0;
    ghost var done := units;
    assert units + Repeat(item.ticketTypeId, 0) == units;
    while u < item.quantity
      invariant 0 <= u <= Max(0, item.quantity)
      invariant next == |units| + u == |done|
      invariant done == units + Repeat(item.ticketTypeId, u)
      invariant db.tickets == base + Minted(done, orderId, mint)
      invariant ids == Ids(Minted(done, orderId, mint))
      invariant db.events == old(db.events) && db.ticketTypes == old(db.ticketTypes)
      invariant db.orders == old(db.orders) && db.orderItems == old(db.orderItems)
    {
      var attempt := mint(next);
      RepeatSnoc(item.ticketTypeId, u);
      MintedSnoc(done, item.ticketTypeId, orderId, mint);
      IdsAppend(Minted(done, orderId, mint),
                if attempt.insertOk then [TicketFor(attempt, orderId, item.ticketTypeId)] else []);
      ids := InsertTicket(db, orderId, item.ticketTypeId, attempt, ids);
      done := done + [item.ticketTypeId];
      next := next + 1;
      u := u + 1;
    }
  }

  /** createTicketsForOrder. Returns the ids of the inserted tickets in minting order. */
  method CreateTicketsForOrder(db: Database, orderId: Id, fetchFails: bool, mint: nat -> MintAttempt)
    returns (r: Result<seq<Id>, GenerationError>)
    modifies db
    ensures db.events == old(db.events) && db.ticketTypes == old(db.ticketTypes)
    ensures db.orders == old(db.orders) && db.orderItems == old(db.orderItems)
    ensures OrderLookup(old(db.orders), orderId, fetchFails).None? ==>
              r == Err(FetchOrderFailed) && db.tickets == old(db.tickets)
    ensures OrderLookup(old(db.orders), orderId, fetchFails).Some? ==>
              var minted := Minted(Plan(ItemsOfOrder(old(db.orderItems), orderId)), orderId, mint);
              r == Ok(Ids(minted)) && db.tickets == old(db.tickets) + minted
  {
    if OrderLookup(db.orders, orderId, fetchFails).None? {
      return Err(FetchOrderFailed);
    }
    var items := ItemsOfOrder(db.orderItems, orderId);
    var ticketIds: seq<Id> := [];
    var k := 0;
    for i := 0 to |items|
      invariant k == |Plan(items[..i])|
      invariant db.tickets == old(db.tickets) + Minted(Plan(items[..i]), orderId, mint)
      invariant ticketIds == Ids(Minted(Plan(items[..i]), orderId, mint))
      invariant db.events == old(db.events) && db.ticketTypes == old(db.ticketTypes)
      invariant db.orders == old(db.orders) && db.orderItems == old(db.orderItems)
    {
      assert items[..i + 1][..i] == items[..i];
      k, ticketIds := MintItem(db, orderId, items[i], mint, k, ticketIds, Plan(items[..i]), old(db.tickets));
    }
    assert items[..|items|] == items;
    return Ok(ticketIds);
  }

  /** The tickets of one order. */
  function TicketsOfOrder(tickets: seq<TicketRow>, orderId: Id): seq<TicketRow> {
    Filter(tickets, (t: TicketRow) => t.orderId == orderId)
  }

  /** Every row minted for an order belongs to that order. */
  lemma MintedAllOfOrder(plan: seq<Id>, orderId: Id, mint: nat -> MintAttempt)
    ensures TicketsOfOrder(Minted(plan, orderId, mint), orderId) == Minted(plan, orderId, mint)
  {
    MintedRows(plan, orderId, mint);
    FilterAll(Minted(plan, orderId, mint), (t: TicketRow) => t.orderId == orderId);
  }

  /** Issuance is not idempotent: a second call for the same order, with every insert
      succeeding, adds a further full set, so the order ends with two tickets per unit more
      than it had. */
  lemma ReissueDuplicates(tickets: seq<TicketRow>, items: seq<OrderItemRow>, orderId: Id,
                          first: nat -> MintAttempt, second: nat -> MintAttempt)
    requires forall k :: 0 <= k < Units(ItemsOfOrder(items, orderId)) ==> first(k).insertOk && second(k).insertOk
    ensures var plan := Plan(ItemsOfOrder(items, orderId));
            |TicketsOfOrder(tickets + Minted(plan, orderId, first) + Minted(plan, orderId, second), orderId)|
              == |TicketsOfOrder(tickets, orderId)| + 2 * Units(ItemsOfOrder(items, orderId))
  {
    var plan := Plan(ItemsOfOrder(items, orderId));
    var p := (t: TicketRow) => t.orderId == orderId;
    PlanLength(ItemsOfOrder(items, orderId));
    MintedAllSucceed(plan, orderId, first);
    MintedAllSucceed(plan, orderId, second);
    MintedAllOfOrder(plan, orderId, first);
    MintedAllOfOrder(plan, orderId, second);
    FilterAppend(tickets + Minted(plan, orderId, first), Minted(plan, orderId, second), p);
    FilterAppend(tickets, Minted(plan, orderId, first), p);
  }
}
