/** The organiser's sales report: orders flattened into one purchase record per order item,
    and the per-customer attendance statistics aggregated from those records. */
module TicketTrackingHook {
  import opened Common
  import opened Store

  // ---------------------------------------------------------------------------
  // Flattening orders into purchase records
  // ---------------------------------------------------------------------------

  /** An order item of the query, with the joined ticket-type name (None when missing). */
  datatype ItemView = ItemView(quantity: int, pricePerTicket: real, typeName: Option<string>)

  /** An order of the query, with its joined event and items. */
  datatype OrderView = OrderView(
    id: Id,
    eventId: Id,
    eventTitle: string,
    userId: Option<Id>,
    createdAt: Timestamp,
    paymentMethod: Option<string>,
    items: seq<ItemView>)

  /** A row of `profiles`: `full_name` and `email` may be null. */
  datatype Profile = Profile(fullName: Option<string>, email: Option<string>)

  /** One purchase record of the report. */
  datatype Purchase = Purchase(
    id: string,
    eventId: Id,
    eventTitle: string,
    userName: string,
    userEmail: string,
    ticketType: string,
    quantity: int,
    totalPrice: real,
    purchaseDate: Timestamp,
    paymentMethod: string,
    orderId: Id)

  const GuestName := "Guest User"
  const GuestEmail := "guest@example.com"
  const AnonymousName := "Anonymous User"
  const UnknownEmail := "unknown@example.com"

  /** `value || fallback` on a nullable string: null and '' both take the fallback. */
  function OrDefault(value: Option<string>, fallback: string): (r: string)
    ensures value.Some? && value.value != [] ==> r == value.value
    ensures value.None? || value.value == [] ==> r == fallback
  {
    if value.Some? && value.value != [] then value.value else fallback
  }

  /** The customer shown for an order. `profileOf` is the profile lookup by user id (None
      when it finds no row). Without a user id, or without a profile, the order is a guest's. */
  function Customer(userId: Option<Id>, profileOf: Id -> Option<Profile>): (c: (string, string))
    ensures userId.None? ==> c == (GuestName, GuestEmail)
    ensures userId.Some? && profileOf(userId.value).None? ==> c == (GuestName, GuestEmail)
    ensures userId.Some? && profileOf(userId.value).Some? ==>
              var p := profileOf(userId.value).value;
              c == (OrDefault(p.fullName, AnonymousName), OrDefault(p.email, UnknownEmail))
  {
    if userId.None? then (GuestName, GuestEmail)
    else match profileOf(userId.value)
      case None => (GuestName, GuestEmail)
      case Some(p) => (OrDefault(p.fullName, AnonymousName), OrDefault(p.email, UnknownEmail))
  }

  /** The report never shows an empty customer name or email: every fallback is non-empty. */
  lemma CustomerNeverBlank(userId: Option<Id>, profileOf: Id -> Option<Profile>)
    ensures Customer(userId, profileOf).0 != [] && Customer(userId, profileOf).1 != []
  {
  }

  /** The record of one item of an order; a missing type name is written "undefined" in the
      id and shown as "Unknown". */
  function Record(o: OrderView, item: ItemView, customer: (string, string)): (p: Purchase)
    ensures p.totalPrice == item.quantity as real * item.pricePerTicket && p.quantity == item.quantity
    ensures p.orderId == o.id && p.eventId == o.eventId && p.purchaseDate == o.createdAt
    ensures p.userName == customer.0 && p.userEmail == customer.1
  {
    Purchase(o.id + "-" + (if item.typeName.Some? then item.typeName.value else "undefined"),
             o.eventId, o.eventTitle, customer.0, customer.1,
             OrDefault(item.typeName, "Unknown"), item.quantity, item.quantity as real * item.pricePerTicket,
             o.createdAt, OrDefault(o.paymentMethod, "Unknown"), o.id)
  }

  /** The records of one order, one per item, in item order. */
  function OrderRecords(o: OrderView, profileOf: Id -> Option<Profile>): (ps: seq<Purchase>)
    ensures |ps| == |o.items|
    ensures forall k :: 0 <= k < |o.items| ==> ps[k] == Record(o, o.items[k], Customer(o.userId, profileOf))
  {
    var c := Customer(o.userId, profileOf);
    seq(|o.items|, k requires 0 <= k < |o.items| => Record(o, o.items[k], c))
  }

  /** The records of every order, order after order. */
  function Flatten(orders: seq<OrderView>, profileOf: Id -> Option<Profile>): (r: seq<Purchase>)
    ensures forall k :: 0 <= k < |r| ==>
              exists j :: 0 <= j < |orders| && r[k].orderId == orders[j].id && r[k].eventId == orders[j].eventId
  {
    if orders == [] then []
    else
      var init, last := orders[..|orders| - 1], orders[|orders| - 1];
      var before, recs := Flatten(init, profileOf), OrderRecords(last, profileOf);
      assert forall j :: 0 <= j < |init| ==> init[j] == orders[j];
      assert forall k :: |before| <= k < |before| + |recs| ==>
               (before + recs)[k].orderId == orders[|orders| - 1].id
               && (before + recs)[k].eventId == orders[|orders| - 1].eventId;
      before + recs
  }

  function ItemCount(orders: seq<OrderView>): nat {
    if orders == [] then 0 else ItemCount(orders[..|orders| - 1]) + |orders[|orders| - 1].items|
  }

  /** There is exactly one record per order item. */
  lemma {:induction false} OneRecordPerItem(orders: seq<OrderView>, profileOf: Id -> Option<Profile>)
    ensures |Flatten(orders, profileOf)| == ItemCount(orders)
  {
    if orders != [] {
      OneRecordPerItem(orders[..|orders| - 1], profileOf);
    }
  }

  /** The nested loop of fetchTicketPurchases over the fetched orders. */
  method TransformPurchases(orders: seq<OrderView>, profileOf: Id -> Option<Profile>)
    returns (purchases: seq<Purchase>)
    ensures purchases == Flatten(orders, profileOf)
  {
    purchases := [];
    for i := 0 to |orders|
      invariant purchases == Flatten(orders[..i], profileOf)
    {
      var order := orders[i];
      var customer := Customer(order.userId, profileOf);
      ghost var before := purchases;
      for k := 0 to |order.items|
        invariant purchases == before + OrderRecords(order, profileOf)[..k]
      {
        purchases := purchases + [Record(order, order.items[k], customer)];
        assert OrderRecords(order, profileOf)[..k + 1] == OrderRecords(order, profileOf)[..k] + [Record(order, order.items[k], customer)];
      }
      assert OrderRecords(order, profileOf)[..|order.items|] == OrderRecords(order, profileOf);
      assert orders[..i + 1][..i] == orders[..i];
    }
    assert orders[..|orders|] == orders;
  }

  /** The hook's state. */
  class Tracker {
    var purchases: seq<Purchase>

    constructor ()
      ensures purchases == []
    {
      purchases := [];
    }

    /** fetchTicketPurchases: nothing happens without a signed-in user; a failed query is
        only reported and keeps the previous records. */
    method FetchTicketPurchases(signedIn: bool, queryFails: bool, orders: seq<OrderView>,
                                profileOf: Id -> Option<Profile>)
      modifies this
      ensures !signedIn || queryFails ==> purchases == old(purchases)
      ensures signedIn && !queryFails ==> purchases == Flatten(orders, profileOf)
    {
      if !signedIn || queryFails {
        return;
      }
      purchases := TransformPurchases(orders, profileOf);
    }
  }

  // ---------------------------------------------------------------------------
  // getAttendanceStats
  // ---------------------------------------------------------------------------

  datatype Stats = Stats(
    userName: string,
    userEmail: string,
    totalTickets: int,
    totalSpent: real,
    lastPurchase: Timestamp,
    orderCount: nat)

  /** A known customer's entry after one more record. */
  function Bump(s: Stats, p: Purchase): Stats {
    s.(totalTickets := s.totalTickets + p.quantity,
       totalSpent := s.totalSpent + p.totalPrice,
       orderCount := s.orderCount + 1,
       lastPurchase := if p.purchaseDate > s.lastPurchase then p.purchaseDate else s.lastPurchase)
  }

  /** A new customer's entry from their first record. */
  function Fresh(p: Purchase): Stats {
    Stats(p.userName, p.userEmail, p.quantity, p.totalPrice, p.purchaseDate, 1)
  }

  /** One step of the forEach: a known email has its entry updated in place, a new one is
      added last. */
  function AddPurchase(stats: seq<Entry<Stats>>, p: Purchase): seq<Entry<Stats>> {
    match Lookup(stats, p.userEmail)
    case Some(s) => Put(stats, p.userEmail, Bump(s, p))
    case None => Put(stats, p.userEmail, Fresh(p))
  }

  lemma AddPurchaseLookup(stats: seq<Entry<Stats>>, p: Purchase, email: string)
    requires UniqueKeys(stats)
    ensures UniqueKeys(AddPurchase(stats, p))
    ensures email != p.userEmail ==> Lookup(AddPurchase(stats, p), email) == Lookup(stats, email)
    ensures email == p.userEmail ==>
              Lookup(AddPurchase(stats, p), email)
              == Some(if Lookup(stats, email).Some? then Bump(Lookup(stats, email).value, p) else Fresh(p))
  {
    match Lookup(stats, p.userEmail)
    case Some(s) => PutProperties(stats, p.userEmail, Bump(s, p));
    case None => PutProperties(stats, p.userEmail, Fresh(p));
  }

  /** The map after the forEach over `purchases`. */
  function Aggregate(purchases: seq<Purchase>): (r: seq<Entry<Stats>>)
    ensures |r| <= |purchases|
    ensures purchases != [] ==> r != []
  {
    if purchases == [] then []
    else AddPurchase(Aggregate(purchases[..|purchases| - 1]), purchases[|purchases| - 1])
  }

  /** The records of one customer, in report order. */
  function RecordsOf(purchases: seq<Purchase>, email: string): seq<Purchase> {
    Filter(purchases, (p: Purchase) => p.userEmail == email)
  }

  function TicketsOf(rs: seq<Purchase>): int {
    if rs == [] then 0 else TicketsOf(rs[..|rs| - 1]) + rs[|rs| - 1].quantity
  }

  function SpentOf(rs: seq<Purchase>): real {
    if rs == [] then 0.0 else SpentOf(rs[..|rs| - 1]) + rs[|rs| - 1].totalPrice
  }

  /** The latest purchase date; on equal dates the earlier record's is kept. */
  function LatestOf(rs: seq<Purchase>): Timestamp
    requires rs != []
  {
    if |rs| == 1 then rs[0].purchaseDate
    else
      var before := LatestOf(rs[..|rs| - 1]);
      if rs[|rs| - 1].purchaseDate > before then rs[|rs| - 1].purchaseDate else before
  }

  /** The latest date is one of the records' dates and no record is later. */
  lemma {:induction false} LatestIsMaximum(rs: seq<Purchase>)
    requires rs != []
    ensures exists k :: 0 <= k < |rs| && rs[k].purchaseDate == LatestOf(rs)
    ensures forall k :: 0 <= k < |rs| ==> rs[k].purchaseDate <= LatestOf(rs)
  {
    if |rs| == 1 {
      assert rs[0].purchaseDate == LatestOf(rs);
    } else {
      var init := rs[..|rs| - 1];
      var last := |rs| - 1;
      LatestIsMaximum(init);
      var j :| 0 <= j < |init| && init[j].purchaseDate == LatestOf(init);
      assert forall k :: 0 <= k < |init| ==> rs[k] == init[k];
      if rs[last].purchaseDate > LatestOf(init) {
        assert rs[last].purchaseDate == LatestOf(rs);
      } else {
        assert rs[j].purchaseDate == LatestOf(rs);
      }
      forall k | 0 <= k < |rs| ensures rs[k].purchaseDate <= LatestOf(rs) {
        if k < last {
          assert rs[k] == init[k];
        }
      }
    }
  }

  /** The statistics a customer's records add up to: the name of their first record, the
      sums of tickets and amounts, the latest date and the number of records. */
  function Expected(rs: seq<Purchase>): Stats
    requires rs != []
  {
    Stats(rs[0].userName, rs[0].userEmail, TicketsOf(rs), SpentOf(rs), LatestOf(rs), |rs|)
  }

  /** One more record of a known customer moves their expected statistics by one step. */
  lemma ExpectedSnoc(rs: seq<Purchase>, p: Purchase)
    requires rs != []
    ensures Expected(rs + [p]) == Bump(Expected(rs), p)
  {
    assert (rs + [p])[..|rs|] == rs;
    assert (rs + [p])[0] == rs[0];
  }

  lemma ExpectedSingle(p: Purchase)
    ensures Expected([p]) == Fresh(p)
  {
    assert [p][..0] == [];
    assert TicketsOf([p]) == p.quantity;
    assert SpentOf([p]) == p.totalPrice;
    assert LatestOf([p]) == p.purchaseDate;
  }

  /** The statistics hold one entry per distinct email, and each entry is what that
      customer's records add up to. `orderCount` counts records, that is order items, not
      orders. */
  lemma {:induction false} AggregateSpec(purchases: seq<Purchase>, email: string)
    ensures UniqueKeys(Aggregate(purchases))
    ensures RecordsOf(purchases, email) == [] ==> Lookup(Aggregate(purchases), email) == None
    ensures RecordsOf(purchases, email) != [] ==>
              Lookup(Aggregate(purchases), email) == Some(Expected(RecordsOf(purchases, email)))
  {
    if purchases != [] {
      var init := purchases[..|purchases| - 1];
      var p := purchases[|purchases| - 1];
      AggregateSpec(init, email);
      AddPurchaseLookup(Aggregate(init), p, email);
      FilterLast(purchases, (q: Purchase) => q.userEmail == email);
      var rs := RecordsOf(init, email);
      if p.userEmail == email {
        assert RecordsOf(purchases, email) == rs + [p];
        if rs == [] {
          ExpectedSingle(p);
          assert rs + [p] == [p];
          assert Lookup(Aggregate(init), email) == None;
          assert Lookup(Aggregate(purchases), email) == Some(Fresh(p));
        } else {
          ExpectedSnoc(rs, p);
          assert Lookup(Aggregate(init), email) == Some(Expected(rs));
          assert Lookup(Aggregate(purchases), email) == Some(Bump(Expected(rs), p));
        }
      } else {
        assert RecordsOf(purchases, email) == rs;
      }
    }
  }

  /** The body of the forEach: the entry is read with `get` and updated, or `set` anew. */
  method Tally(statsMap: seq<Entry<Stats>>, purchase: Purchase) returns (next: seq<Entry<Stats>>)
    ensures next == AddPurchase(statsMap, purchase)
  {
    var key := purchase.userEmail;
    if HasKey(statsMap, key) {
      var existing := Lookup(statsMap, key).value;
      var latest := if purchase.purchaseDate > existing.lastPurchase then purchase.purchaseDate else existing.lastPurchase;
      next := Put(statsMap, key, existing.(totalTickets := existing.totalTickets + purchase.quantity,
                                          totalSpent := existing.totalSpent + purchase.totalPrice,
                                          orderCount := existing.orderCount + 1,
                                          lastPurchase := latest));
    } else {
      next := Put(statsMap, key, Stats(purchase.userName, purchase.userEmail, purchase.quantity,
                                       purchase.totalPrice, purchase.purchaseDate, 1));
    }
  }

  /** getAttendanceStats: the forEach over the records, then `Array.from(statsMap.values())`. */
  method GetAttendanceStats(purchases: seq<Purchase>) returns (stats: seq<Stats>)
    ensures stats == Values(Aggregate(purchases))
  {
    var statsMap: seq<Entry<Stats>> := [];
    for i := 0 to |purchases|
      invariant statsMap == Aggregate(purchases[..i])
    {
      statsMap := Tally(statsMap, purchases[i]);
      assert purchases[..i + 1][..i] == purchases[..i] && purchases[..i + 1][i] == purchases[i];
      assert Aggregate(purchases[..i + 1]) == AddPurchase(Aggregate(purchases[..i]), purchases[i]);
    }
    assert purchases[..|purchases|] == purchases;
    stats := Values(statsMap);
  }
}
