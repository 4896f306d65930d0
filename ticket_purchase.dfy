/** The purchase widget keyed by ticket-type name: a selection map that never stores a zero,
    the unlocked flags, and the totals and availability it shows. */
module TicketPurchase {
  import opened Common

  /** A ticket type as the widget receives it. */
  datatype PurchaseType = PurchaseType(
    name: string,
    price: real,
    quantity: int,
    sold: int,
    isPasswordProtected: bool,
    password: Option<string>)

  /** `event.ticketTypes.find(t => t.name === name)`. */
  function FindByName(types: seq<PurchaseType>, name: string): (r: Option<PurchaseType>)
    ensures r.None? <==> forall k :: 0 <= k < |types| ==> types[k].name != name
    ensures r.Some? ==> r.value in types && r.value.name == name
  {
    Find(types, (t: PurchaseType) => t.name, name)
  }

  predicate NoZero(selected: seq<Entry<int>>) {
    forall i :: 0 <= i < |selected| ==> selected[i].value != 0
  }

  /** updateTicketQuantity: 0 removes the name, any other value sets it. */
  function Updated(selected: seq<Entry<int>>, name: string, quantity: int): (r: seq<Entry<int>>)
    ensures Lookup(r, name) == if quantity == 0 then None else Some(quantity)
  {
    if quantity == 0 then Remove(selected, name)
    else PutReadsBack(selected, name, quantity); Put(selected, name, quantity)
  }

  /** The map keeps unique keys and never holds a 0; the name reads back as what was set
      (undefined for 0), and every other name keeps its value. */
  lemma UpdatedProperties(selected: seq<Entry<int>>, name: string, quantity: int)
    requires UniqueKeys(selected) && NoZero(selected)
    ensures UniqueKeys(Updated(selected, name, quantity)) && NoZero(Updated(selected, name, quantity))
    ensures Lookup(Updated(selected, name, quantity), name) == if quantity == 0 then None else Some(quantity)
    ensures forall n :: n != name ==> Lookup(Updated(selected, name, quantity), n) == Lookup(selected, n)
  {
    if quantity == 0 {
      RemoveLookup(selected, name);
      var r := Remove(selected, name);
      forall i | 0 <= i < |r| ensures r[i].value != 0 {
        assert r[i] in selected;
      }
    } else {
      PutProperties(selected, name, quantity);
    }
  }

  /** getTotalTickets. */
  function TotalTickets(selected: seq<Entry<int>>): (r: int)
    ensures (forall i :: 0 <= i < |selected| ==> selected[i].value >= 0) ==> r >= 0
  {
    SumIntNonNegative(Values(selected));
    SumInt(Values(selected))
  }

  /** Each update moves the ticket total by the change of that one name's count. */
  lemma TotalTicketsAfterUpdate(selected: seq<Entry<int>>, name: string, quantity: int)
    requires UniqueKeys(selected)
    ensures TotalTickets(Updated(selected, name, quantity))
            == TotalTickets(selected) - ValueOrZero(selected, name) + quantity
  {
    if quantity == 0 {
      SumAfterRemove(selected, name);
    } else {
      SumAfterPut(selected, name, quantity);
    }
  }

  /** What one selection entry adds to the price: price × quantity, 0 for an unknown name. */
  function EntryPrice(types: seq<PurchaseType>, e: Entry<int>): real {
    match FindByName(types, e.key)
    case Some(t) => t.price * e.value as real
    case None => 0.0
  }

  /** getTotalPrice. */
  function TotalPrice(types: seq<PurchaseType>, selected: seq<Entry<int>>): (r: real)
    ensures types == [] ==> r == 0.0
  {
    if selected == [] then 0.0 else EntryPrice(types, selected[0]) + TotalPrice(types, selected[1..])
  }

  /** With prices and counts not negative, the total price is not negative. */
  lemma {:induction false} TotalPriceNonNegative(types: seq<PurchaseType>, selected: seq<Entry<int>>)
    requires forall k :: 0 <= k < |types| ==> types[k].price >= 0.0
    requires forall i :: 0 <= i < |selected| ==> selected[i].value >= 0
    ensures TotalPrice(types, selected) >= 0.0
  {
    if selected != [] {
      TotalPriceNonNegative(types, selected[1..]);
      match FindByName(types, selected[0].key)
      case Some(t) =>
        assert t in types;
        assert t.price * selected[0].value as real >= 0.0;
      case None =>
    }
  }

  /** A name no type carries adds nothing to the total price. */
  lemma {:induction false} UnknownNameCostsNothing(types: seq<PurchaseType>, selected: seq<Entry<int>>,
                                                   name: string, q: int)
    requires FindByName(types, name).None?
    ensures TotalPrice(types, selected + [Entry(name, q)]) == TotalPrice(types, selected)
  {
    if selected == [] {
      assert selected + [Entry(name, q)] == [Entry(name, q)];
    } else {
      assert (selected + [Entry(name, q)])[1..] == selected[1..] + [Entry(name, q)];
      UnknownNameCostsNothing(types, selected[1..], name, q);
    }
  }

  /** The "tickets remaining" figure: Σ (quantity − sold) over every type. */
  function Remaining(types: seq<PurchaseType>): (r: int)
    ensures (forall k :: 0 <= k < |types| ==> types[k].sold <= types[k].quantity) ==> r >= 0
  {
    if types == [] then 0 else (types[0].quantity - types[0].sold) + Remaining(types[1..])
  }

  function Capacity(types: seq<PurchaseType>): int {
    if types == [] then 0 else types[0].quantity + Capacity(types[1..])
  }

  function SoldTotal(types: seq<PurchaseType>): int {
    if types == [] then 0 else types[0].sold + SoldTotal(types[1..])
  }

  /** The remaining figure is total capacity minus total sold, so an oversold type lowers
      the count shown for the others. */
  lemma {:induction false} RemainingIsCapacityMinusSold(types: seq<PurchaseType>)
    ensures Remaining(types) == Capacity(types) - SoldTotal(types)
  {
    if types != [] {
      RemainingIsCapacityMinusSold(types[1..]);
    }
  }

  /** The − button sends `max(0, selected − 1)`: from 1 it removes the name. */
  lemma DecrementFromOneRemoves(selected: seq<Entry<int>>, name: string)
    requires UniqueKeys(selected) && NoZero(selected) && ValueOrZero(selected, name) == 1
    ensures Lookup(Updated(selected, name, Max(0, ValueOrZero(selected, name) - 1)), name) == None
  {
    UpdatedProperties(selected, name, 0);
  }

  /** The widget's state. */
  class Widget {
    const types: seq<PurchaseType>
    var selected: seq<Entry<int>>
    var unlocked: seq<Entry<bool>>

    ghost predicate Valid()
      reads this
    {
      UniqueKeys(selected) && NoZero(selected) && UniqueKeys(unlocked)
      && forall i :: 0 <= i < |unlocked| ==> unlocked[i].value
    }

    constructor (types: seq<PurchaseType>)
      ensures Valid() && this.types == types && selected == [] && unlocked == []
    {
      this.types := types;
      selected := [];
      unlocked := [];
    }

    /** The increment control is disabled at `selected >= quantity - sold`. */
    predicate IncrementEnabled(t: PurchaseType)
      reads this
    {
      ValueOrZero(selected, t.name) < t.quantity - t.sold
    }

    /** updateTicketQuantity. */
    method UpdateTicketQuantity(name: string, quantity: int)
      requires Valid()
      modifies this
      ensures Valid() && unlocked == old(unlocked)
      ensures selected == Updated(old(selected), name, quantity)
      ensures TotalTickets(selected) == TotalTickets(old(selected)) - ValueOrZero(old(selected), name) + quantity
    {
      UpdatedProperties(selected, name, quantity);
      TotalTicketsAfterUpdate(selected, name, quantity);
      selected := Updated(selected, name, quantity);
    }

    /** handleTicketUnlock: only ever sets a name's flag to true. */
    method HandleTicketUnlock(name: string)
      requires Valid()
      modifies this
      ensures Valid() && selected == old(selected)
      ensures unlocked == Put(old(unlocked), name, true)
      ensures Lookup(unlocked, name) == Some(true)
      ensures forall n :: n != name ==> Lookup(unlocked, n) == Lookup(old(unlocked), n)
    {
      PutProperties(unlocked, name, true);
      unlocked := Put(unlocked, name, true);
    }
  }
}
