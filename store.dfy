/** The backend's tables as an in-memory store: the rows of `events`, `ticket_types`,
    `orders`, `order_items` and `tickets`, and the query shapes the services use on them
    (`.eq(column, value)` filters, `.single()` lookups, `.update(...).eq(...)` writes). */
module Store {
  import opened Common

  type Id = string

  /** An instant in milliseconds since the epoch; its ISO-8601 text form is not modelled. */
  type Timestamp = int

  /** A row of `events`. */
  datatype EventRow = EventRow(
    id: Id,
    title: string,
    description: Option<string>,
    date: string,
    location: string,
    imageUrl: Option<string>,
    overallTicketLimit: Option<int>,
    userId: Id,
    createdAt: Timestamp,
    updatedAt: Timestamp)

  /** A row of `ticket_types`: `quantity` is the capacity, `sold` the units sold so far. */
  datatype TicketTypeRow = TicketTypeRow(
    id: Id,
    eventId: Id,
    name: string,
    price: real,
    quantity: int,
    sold: int,
    description: Option<string>,
    isPasswordProtected: bool,
    passwordHash: Option<string>,
    createdAt: Timestamp)

  /** A row of `orders`. */
  datatype OrderRow = OrderRow(
    id: Id,
    eventId: Id,
    userId: Option<Id>,
    totalAmount: real,
    status: string,
    paymentMethod: Option<string>,
    createdAt: Timestamp,
    updatedAt: Timestamp)

  /** A row of `order_items` (its generated `id` and `created_at` are never read by the core). */
  datatype OrderItemRow = OrderItemRow(
    orderId: Id,
    ticketTypeId: Id,
    quantity: int,
    pricePerTicket: real)

  /** A row of `tickets`: `qrCode` is the scanned credential; `isUsed` flips once at the venue. */
  datatype TicketRow = TicketRow(
    id: Id,
    orderId: Id,
    ticketTypeId: Id,
    ticketNumber: string,
    qrCode: string,
    isUsed: bool,
    usedAt: Option<Timestamp>,
    createdAt: Timestamp)

  /** The database: one sequence of rows per table, in insertion order. */
  class Database {
    var events: seq<EventRow>
    var ticketTypes: seq<TicketTypeRow>
    var orders: seq<OrderRow>
    var orderItems: seq<OrderItemRow>
    var tickets: seq<TicketRow>

    constructor (events: seq<EventRow>, ticketTypes: seq<TicketTypeRow>, orders: seq<OrderRow>,
                 orderItems: seq<OrderItemRow>, tickets: seq<TicketRow>)
      ensures this.events == events && this.ticketTypes == ticketTypes && this.orders == orders
      ensures this.orderItems == orderItems && this.tickets == tickets
    {
      this.events := events;
      this.ticketTypes := ticketTypes;
      this.orders := orders;
      this.orderItems := orderItems;
      this.tickets := tickets;
    }
  }

  // ---------------------------------------------------------------------------
  // Query shapes
  // ---------------------------------------------------------------------------

  /** The rows a `.eq(...)` filter selects, in table order. */
  function Filter<R>(rows: seq<R>, p: R -> bool): (r: seq<R>)
    ensures |r| <= |rows|
    ensures forall x :: x in r ==> x in rows && p(x)
    ensures forall x :: x in rows && p(x) ==> x in r
  {
    if rows == [] then []
    else (if p(rows[0]) then [rows[0]] else []) + Filter(rows[1..], p)
  }

  lemma {:induction false} FilterAppend<R>(a: seq<R>, b: seq<R>, p: R -> bool)
    ensures Filter(a + b, p) == Filter(a, p) + Filter(b, p)
  {
    if a == [] {
      assert a + b == b;
    } else {
      assert (a + b)[1..] == a[1..] + b;
      FilterAppend(a[1..], b, p);
    }
  }

  /** Filtering a list with one more row at the end adds that row when it passes. */
  lemma FilterLast<R>(rows: seq<R>, p: R -> bool)
    requires rows != []
    ensures Filter(rows, p) == Filter(rows[..|rows| - 1], p) + (if p(rows[|rows| - 1]) then [rows[|rows| - 1]] else [])
  {
    var init := rows[..|rows| - 1];
    var last := [rows[|rows| - 1]];
    assert rows == init + last;
    FilterAppend(init, last, p);
    assert last[1..] == [];
    assert Filter(last, p) == (if p(last[0]) then [last[0]] else []) + Filter(last[1..], p);
  }

  /** A filter every row passes keeps the rows as they are. */
  lemma {:induction false} FilterAll<R>(rows: seq<R>, p: R -> bool)
    requires forall k :: 0 <= k < |rows| ==> p(rows[k])
    ensures Filter(rows, p) == rows
  {
    if rows != [] {
      FilterAll(rows[1..], p);
    }
  }

  /** When exactly one position satisfies `p`, the filter holds exactly that row. */
  lemma {:induction false} FilterSingleton<R>(rows: seq<R>, p: R -> bool, j: int)
    requires 0 <= j < |rows| && p(rows[j])
    requires forall k :: 0 <= k < |rows| && k != j ==> !p(rows[k])
    ensures Filter(rows, p) == [rows[j]]
  {
    if j == 0 {
      assert forall k :: 0 <= k < |rows| - 1 ==> rows[1..][k] == rows[k + 1];
      FilterNone(rows[1..], p);
    } else {
      assert forall k :: 0 <= k < |rows| - 1 ==> rows[1..][k] == rows[k + 1];
      FilterSingleton(rows[1..], p, j - 1);
    }
  }

  lemma {:induction false} FilterNone<R>(rows: seq<R>, p: R -> bool)
    requires forall k :: 0 <= k < |rows| ==> !p(rows[k])
    ensures Filter(rows, p) == []
  {
    if rows != [] {
      FilterNone(rows[1..], p);
    }
  }

  /** `.single()`: the one matching row, or an error (None) when zero or several rows match. */
  function Single<R>(rows: seq<R>, p: R -> bool): (r: Option<R>)
    ensures r.Some? <==> |Filter(rows, p)| == 1
    ensures r.Some? ==> r.value in rows && p(r.value)
  {
    var m := Filter(rows, p);
    if |m| == 1 then Some(m[0]) else None
  }

  lemma SingleAt<R>(rows: seq<R>, p: R -> bool, j: int)
    requires 0 <= j < |rows| && p(rows[j])
    requires forall k :: 0 <= k < |rows| && k != j ==> !p(rows[k])
    ensures Single(rows, p) == Some(rows[j])
  {
    FilterSingleton(rows, p, j);
  }

  /** A `.single()` that succeeds found the one position whose row matches. */
  lemma {:induction false} SingleIndex<R>(rows: seq<R>, p: R -> bool) returns (j: int)
    requires Single(rows, p).Some?
    ensures 0 <= j < |rows| && rows[j] == Single(rows, p).value && p(rows[j])
    ensures forall k :: 0 <= k < |rows| && k != j ==> !p(rows[k])
  {
    var tail := Filter(rows[1..], p);
    if p(rows[0]) {
      assert |tail| == 0;
      forall k | 1 <= k < |rows| ensures !p(rows[k]) {
        assert rows[k] == rows[1..][k - 1];
      }
      j := 0;
    } else {
      assert Filter(rows, p) == tail;
      var i := SingleIndex(rows[1..], p);
      j := i + 1;
      forall k | 1 <= k < |rows| ensures !p(rows[k]) || k == j {
        assert rows[k] == rows[1..][k - 1];
      }
    }
  }

  lemma SingleMissing<R>(rows: seq<R>, p: R -> bool)
    requires forall k :: 0 <= k < |rows| ==> !p(rows[k])
    ensures Single(rows, p) == None
  {
    FilterNone(rows, p);
  }

  // ---------------------------------------------------------------------------
  // Per-table lookups and key uniqueness
  // ---------------------------------------------------------------------------

  predicate UniqueTypeIds(types: seq<TicketTypeRow>) {
    forall i, j :: 0 <= i < j < |types| ==> types[i].id != types[j].id
  }

  predicate UniqueTicketIds(tickets: seq<TicketRow>) {
    forall i, j :: 0 <= i < j < |tickets| ==> tickets[i].id != tickets[j].id
  }

  predicate UniqueQrCodes(tickets: seq<TicketRow>) {
    forall i, j :: 0 <= i < j < |tickets| ==> tickets[i].qrCode != tickets[j].qrCode
  }

  /** `from('ticket_types').select(...).eq('id', id).single()`; `failed` is a transport error. */
  function TypeById(types: seq<TicketTypeRow>, id: Id, failed: bool): Option<TicketTypeRow> {
    if failed then None else Single(types, (t: TicketTypeRow) => t.id == id)
  }

  /** With unique ids, a lookup that does not fail finds the row carrying the id. */
  lemma TypeByIdAt(types: seq<TicketTypeRow>, j: int)
    requires UniqueTypeIds(types) && 0 <= j < |types|
    ensures TypeById(types, types[j].id, false) == Some(types[j])
  {
    SingleAt(types, (t: TicketTypeRow) => t.id == types[j].id, j);
  }

  lemma TypeByIdMissing(types: seq<TicketTypeRow>, id: Id, failed: bool)
    requires forall k :: 0 <= k < |types| ==> types[k].id != id
    ensures TypeById(types, id, failed) == None
  {
    SingleMissing(types, (t: TicketTypeRow) => t.id == id);
  }

  /** The ticket types of one event, in table order. */
  function TypesOfEvent(types: seq<TicketTypeRow>, eventId: Id): seq<TicketTypeRow> {
    Filter(types, (t: TicketTypeRow) => t.eventId == eventId)
  }
}
