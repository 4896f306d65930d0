/** The event form data, its first-error validation (validateEventData), and the local
    event record built from it (createMockEvent). */
module EventHelpers {
  import opened Common

  /** One ticket type of the form; optional fields are None when left undefined. */
  datatype TicketInput = TicketInput(
    name: string,
    price: real,
    quantity: int,
    description: Option<string>,
    isPasswordProtected: Option<bool>,
    password: Option<string>)

  /** CreateEventData, with the `overall_ticket_limit` that the persistence layer also reads. */
  datatype CreateEventData = CreateEventData(
    title: string,
    description: Option<string>,
    date: string,
    time: string,
    location: string,
    imageUrl: Option<string>,
    overallTicketLimit: Option<int>,
    ticketTypes: seq<TicketInput>)

  const TitleRequired := "Event title is required"
  const LocationRequired := "Event location is required"
  const DateTimeRequired := "Event date and time are required"
  const TicketTypeRequired := "At least one ticket type is required"
  const TicketNameRequired := "All ticket types must have a name"
  const NegativePrice := "Ticket prices cannot be negative"
  const NonPositiveQuantity := "Ticket quantities must be greater than 0"

  /** Every message validateEventData can report. */
  const EventDataMessages: set<string> := {TitleRequired, LocationRequired, DateTimeRequired,
    TicketTypeRequired, TicketNameRequired, NegativePrice, NonPositiveQuantity}

  /** The three per-ticket checks, in order. */
  function TicketError(t: TicketInput): Option<string> {
    if Trim(t.name) == [] then Some(TicketNameRequired)
    else if t.price < 0.0 then Some(NegativePrice)
    else if t.quantity <= 0 then Some(NonPositiveQuantity)
    else None
  }

  /** A ticket passes when its name is not blank, its price is not negative and its
      quantity is positive; a blank name is reported before a negative price. */
  lemma TicketErrorChecks(t: TicketInput)
    ensures TicketError(t).None? <==> !AllWhiteSpace(t.name) && t.price >= 0.0 && t.quantity > 0
    ensures AllWhiteSpace(t.name) ==> TicketError(t) == Some(TicketNameRequired)
    ensures !AllWhiteSpace(t.name) && t.price < 0.0 ==> TicketError(t) == Some(NegativePrice)
  {
    TrimEmptyIffBlank(t.name);
  }

  /** The loop over the ticket types: the first ticket's error, if any. */
  function FirstTicketError(tickets: seq<TicketInput>): (r: Option<string>)
    ensures r.None? <==> forall k :: 0 <= k < |tickets| ==> TicketError(tickets[k]).None?
    ensures r.Some? ==> r.value in {TicketNameRequired, NegativePrice, NonPositiveQuantity}
  {
    if tickets == [] then None
    else if TicketError(tickets[0]).Some? then TicketError(tickets[0])
    else
      assert forall k :: 0 <= k < |tickets| - 1 ==> tickets[1..][k] == tickets[k + 1];
      FirstTicketError(tickets[1..])
  }

  /** The error reported is that of the first failing ticket: every ticket before it passes. */
  lemma {:induction false} FirstTicketErrorIsFirst(tickets: seq<TicketInput>) returns (k: int)
    requires FirstTicketError(tickets).Some?
    ensures 0 <= k < |tickets| && FirstTicketError(tickets) == TicketError(tickets[k])
    ensures forall m :: 0 <= m < k ==> TicketError(tickets[m]).None?
  {
    if TicketError(tickets[0]).Some? {
      k := 0;
    } else {
      var rest := tickets[1..];
      assert FirstTicketError(tickets) == FirstTicketError(rest);
      var j := FirstTicketErrorIsFirst(rest);
      k := j + 1;
      assert tickets[k] == rest[j];
      forall m | 1 <= m < k ensures TicketError(tickets[m]).None? {
        assert tickets[m] == rest[m - 1];
      }
    }
  }

  /** validateEventData: the message of the first failing check, or None. */
  function ValidateEventData(d: CreateEventData): (r: Option<string>)
    ensures r.Some? ==> r.value in EventDataMessages
    ensures d.ticketTypes == [] || d.date == [] || d.time == [] ==> r.Some?
  {
    if Trim(d.title) == [] then Some(TitleRequired)
    else if Trim(d.location) == [] then Some(LocationRequired)
    else if d.date == [] || d.time == [] then Some(DateTimeRequired)
    else if |d.ticketTypes| == 0 then Some(TicketTypeRequired)
    else FirstTicketError(d.ticketTypes)
  }

  /** Every check of the form, stated on its own. */
  predicate EventDataAcceptable(d: CreateEventData) {
    !AllWhiteSpace(d.title) && !AllWhiteSpace(d.location) && d.date != [] && d.time != []
    && |d.ticketTypes| > 0
    && forall k :: 0 <= k < |d.ticketTypes| ==>
         !AllWhiteSpace(d.ticketTypes[k].name) && d.ticketTypes[k].price >= 0.0 && d.ticketTypes[k].quantity > 0
  }

  /** The form passes (None) exactly when every check holds. */
  lemma ValidateEventDataNoneIff(d: CreateEventData)
    ensures ValidateEventData(d).None? <==> EventDataAcceptable(d)
  {
    TrimEmptyIffBlank(d.title);
    TrimEmptyIffBlank(d.location);
    forall k | 0 <= k < |d.ticketTypes| {
      TicketErrorChecks(d.ticketTypes[k]);
    }
  }

  /** The checks fire in order: title, location, date and time, ticket list, then the first
      failing ticket. A blank title is reported whatever else is wrong. */
  lemma ValidateEventDataOrder(d: CreateEventData)
    ensures AllWhiteSpace(d.title) ==> ValidateEventData(d) == Some(TitleRequired)
    ensures !AllWhiteSpace(d.title) && AllWhiteSpace(d.location) ==> ValidateEventData(d) == Some(LocationRequired)
    ensures !AllWhiteSpace(d.title) && !AllWhiteSpace(d.location) && (d.date == [] || d.time == []) ==>
              ValidateEventData(d) == Some(DateTimeRequired)
    ensures (!AllWhiteSpace(d.title) && !AllWhiteSpace(d.location) && d.date != [] && d.time != []
             && d.ticketTypes == []) ==> ValidateEventData(d) == Some(TicketTypeRequired)
    ensures (!AllWhiteSpace(d.title) && !AllWhiteSpace(d.location) && d.date != [] && d.time != []
             && d.ticketTypes != []) ==> ValidateEventData(d) == FirstTicketError(d.ticketTypes)
  {
    TrimEmptyIffBlank(d.title);
    TrimEmptyIffBlank(d.location);
  }

  /** A free ticket passes the price check; a negative price does not. */
  lemma PriceBoundary(t: TicketInput)
    requires !AllWhiteSpace(t.name) && t.quantity > 0
    ensures t.price == 0.0 ==> TicketError(t) == None
    ensures t.price < 0.0 ==> TicketError(t) == Some(NegativePrice)
  {
    TicketErrorChecks(t);
  }

  // ---------------------------------------------------------------------------
  // createMockEvent
  // ---------------------------------------------------------------------------

  /** The `TicketType` record of the client. */
  datatype TicketTypeView = TicketTypeView(
    id: string,
    eventId: string,
    name: string,
    price: real,
    quantity: int,
    sold: int,
    description: string,
    isPasswordProtected: bool,
    passwordHash: string,
    createdAt: string)

  /** The `Event` record of the client. */
  datatype EventView = EventView(
    id: string,
    title: string,
    description: string,
    date: string,
    location: string,
    imageUrl: string,
    userId: string,
    createdAt: string,
    updatedAt: string,
    ticketTypes: seq<TicketTypeView>)

  /** `new Date(...).toISOString()` on an unparsable date throws. */
  datatype MockEventError = InvalidTimeValue

  /** `d?.trim() || ''`. */
  function TrimmedOrEmpty(d: Option<string>): (r: string)
    ensures d.None? ==> r == []
    ensures d.Some? ==> r == Trim(d.value)
  {
    if d.Some? then Trim(d.value) else []
  }

  function OrEmpty(s: Option<string>): (r: string)
    ensures s.Some? ==> r == s.value
    ensures s.None? ==> r == []
  {
    if s.Some? then s.value else []
  }

  /** One client ticket type built from the form entry: trimmed name, nothing sold, no
      event id yet, password stored as typed. */
  function MockTicketType(t: TicketInput, id: string, nowIso: string): (v: TicketTypeView)
    ensures v.name == Trim(t.name) && v.price == t.price && v.quantity == t.quantity
    ensures v.sold == 0 && v.eventId == [] && v.id == id
    ensures v.description == TrimmedOrEmpty(t.description)
    ensures v.isPasswordProtected <==> t.isPasswordProtected == Some(true)
    ensures v.passwordHash == OrEmpty(t.password)
  {
    TicketTypeView(id, [], Trim(t.name), t.price, t.quantity, 0, TrimmedOrEmpty(t.description),
                   t.isPasswordProtected == Some(true), OrEmpty(t.password), nowIso)
  }

  /** createMockEvent. `isoDate` is the ISO rendering of `date + "T" + time` (None when it
      does not parse), `newId(0)` the event id and `newId(k + 1)` that of the k-th ticket type. */
  function CreateMockEvent(d: CreateEventData, userId: string, isoDate: Option<string>,
                           newId: nat -> string, nowIso: string): (r: Result<EventView, MockEventError>)
    ensures isoDate.None? <==> r.Err?
    ensures r.Ok? ==> r.value.title == Trim(d.title) && r.value.location == Trim(d.location)
                      && r.value.description == TrimmedOrEmpty(d.description)
                      && r.value.imageUrl == OrEmpty(d.imageUrl) && r.value.userId == userId
    ensures r.Ok? ==> |r.value.ticketTypes| == |d.ticketTypes|
                      && forall k :: 0 <= k < |d.ticketTypes| ==>
                           r.value.ticketTypes[k] == MockTicketType(d.ticketTypes[k], newId(k + 1), nowIso)
  {
    if isoDate.None? then Err(InvalidTimeValue)
    else
      var types := seq(|d.ticketTypes|, k requires 0 <= k < |d.ticketTypes| =>
                       MockTicketType(d.ticketTypes[k], newId(k + 1), nowIso));
      Ok(EventView(newId(0), Trim(d.title), TrimmedOrEmpty(d.description), isoDate.value,
                   Trim(d.location), OrEmpty(d.imageUrl), userId, nowIso, nowIso, types))
  }

  /** Every ticket type of a mock event starts with nothing sold. */
  lemma MockEventStartsUnsold(d: CreateEventData, userId: string, isoDate: Option<string>,
                              newId: nat -> string, nowIso: string)
    requires CreateMockEvent(d, userId, isoDate, newId, nowIso).Ok?
    ensures var e := CreateMockEvent(d, userId, isoDate, newId, nowIso).value;
            forall k :: 0 <= k < |e.ticketTypes| ==> e.ticketTypes[k].sold == 0
  {
  }

  /** A form that passed validateEventData gives a mock event with a title and a location,
      at least one ticket type, and every type named, priced at 0 or more and with a
      positive quantity. */
  lemma ValidatedMockEventWellFormed(d: CreateEventData, userId: string, isoDate: Option<string>,
                                     newId: nat -> string, nowIso: string)
    requires ValidateEventData(d).None? && isoDate.Some?
    ensures var e := CreateMockEvent(d, userId, isoDate, newId, nowIso).value;
            e.title != [] && e.location != [] && e.ticketTypes != []
            && forall k :: 0 <= k < |e.ticketTypes| ==>
                 e.ticketTypes[k].name != [] && e.ticketTypes[k].price >= 0.0 && e.ticketTypes[k].quantity > 0
  {
    var e := CreateMockEvent(d, userId, isoDate, newId, nowIso).value;
    forall k | 0 <= k < |e.ticketTypes|
      ensures e.ticketTypes[k].name != [] && e.ticketTypes[k].price >= 0.0 && e.ticketTypes[k].quantity > 0
    {
      assert TicketError(d.ticketTypes[k]).None?;
    }
  }
}
