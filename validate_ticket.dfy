/** The venue-side validation endpoint: look a ticket up by its QR payload, reject it when
    unknown or already used, otherwise flip it to used. The flip is one-way. */
module ValidateTicket {
  import opened Common
  import opened Store

  /** The incoming request: a CORS preflight, a body that is not JSON, or a JSON body whose
      `qrCode` field may be absent. */
  datatype Request = Preflight | Malformed | Post(qrCode: Option<string>)

  /** The fields of `ticketInfo` that come from the ticket and its joined type and event. */
  datatype TicketInfo = TicketInfo(ticketNumber: string, eventTitle: string, eventDate: string,
                                   eventLocation: string, ticketType: string)

  /** The responses the handler can give. */
  datatype Response =
    | CorsPreflight
    | MissingQrCode
    | NotFound
    | AlreadyUsed(usedAt: Option<Timestamp>, ticketNumber: string, eventTitle: string, ticketType: string)
    | UpdateFailed
    | Validated(info: TicketInfo, validatedAt: Timestamp)
    | InternalError

  /** Database faults: the lookup and the update may each return an error. */
  datatype Faults = Faults(lookupFails: bool, updateFails: bool)

  function Status(r: Response): int {
    match r
    case CorsPreflight => 200
    case MissingQrCode => 400
    case NotFound => 404
    case AlreadyUsed(_, _, _, _) => 400
    case UpdateFailed => 500
    case Validated(_, _) => 200
    case InternalError => 500
  }

  /** The `valid` field of the JSON body, where there is one. */
  function ValidField(r: Response): Option<bool> {
    match r
    case NotFound => Some(false)
    case AlreadyUsed(_, _, _, _) => Some(false)
    case Validated(_, _) => Some(true)
    case _ => None
  }

  /** The `error` field of the JSON body, where there is one. */
  function ErrorField(r: Response): Option<string> {
    match r
    case MissingQrCode => Some("QR code is required")
    case NotFound => Some("Invalid ticket - not found")
    case AlreadyUsed(_, _, _, _) => Some("Ticket already used")
    case UpdateFailed => Some("Failed to validate ticket")
    case InternalError => Some("Internal server error")
    case _ => None
  }

  /** Only a successful flip answers `valid: true`, and every 200 is either that or the
      preflight. */
  lemma StatusAgreesWithValidity(r: Response)
    ensures ValidField(r) == Some(true) <==> r.Validated?
    ensures Status(r) == 200 <==> r.Validated? || r.CorsPreflight?
    ensures ErrorField(r).Some? <==> Status(r) != 200
  {
  }

  /** The `ticket_types(name, events(title, date, location))` join; a missing type or event
      leaves a null that the handler dereferences, which throws. */
  function Info(events: seq<EventRow>, types: seq<TicketTypeRow>, t: TicketRow): Option<TicketInfo> {
    match Single(types, (ty: TicketTypeRow) => ty.id == t.ticketTypeId)
    case None => None
    case Some(ty) =>
      match Single(events, (e: EventRow) => e.id == ty.eventId)
      case None => None
      case Some(ev) => Some(TicketInfo(t.ticketNumber, ev.title, ev.date, ev.location, ty.name))
  }

  /** `.update({is_used: true, used_at: now}).eq('id', id)`. */
  function MarkUsed(tickets: seq<TicketRow>, id: Id, now: Timestamp): (r: seq<TicketRow>)
    ensures |r| == |tickets|
    ensures forall i :: 0 <= i < |tickets| ==>
              r[i] == if tickets[i].id == id then tickets[i].(isUsed := true, usedAt := Some(now)) else tickets[i]
  {
    seq(|tickets|, i requires 0 <= i < |tickets| =>
      if tickets[i].id == id then tickets[i].(isUsed := true, usedAt := Some(now)) else tickets[i])
  }

  /** `!qrCode`: an absent field or the empty string. */
  predicate QrMissing(qrCode: Option<string>) {
    qrCode.None? || qrCode.value == []
  }

  /** `.from('tickets').select(...).eq('qr_code', qrCode).single()`. */
  function Lookup(tickets: seq<TicketRow>, qrCode: string, failed: bool): (r: Option<TicketRow>)
    ensures failed ==> r.None?
    ensures r.Some? ==> r.value in tickets && r.value.qrCode == qrCode
  {
    if failed then None else Single(tickets, (t: TicketRow) => t.qrCode == qrCode)
  }

  /** The handler's answer and the tickets table after it. `usedAt` and `validatedAt` are the
      two clock readings. A scan whose join is broken still flips the ticket before failing. */
  function Respond(events: seq<EventRow>, types: seq<TicketTypeRow>, tickets: seq<TicketRow>,
                   req: Request, faults: Faults, usedAt: Timestamp, validatedAt: Timestamp)
    : (r: (Response, seq<TicketRow>))
    ensures |r.1| == |tickets|
    ensures forall i :: 0 <= i < |tickets| ==>
              r.1[i] == tickets[i] || r.1[i] == tickets[i].(isUsed := true, usedAt := Some(usedAt))
    ensures r.1 != tickets ==> req.Post? && (r.0.Validated? || r.0.InternalError?)
    ensures r.0.Validated? ==> r.0.validatedAt == validatedAt && req.Post? && !QrMissing(req.qrCode)
                               && exists i :: 0 <= i < |tickets| && tickets[i].qrCode == req.qrCode.value
                                              && !tickets[i].isUsed && r.1[i].isUsed
  {
    match req
    case Preflight => (CorsPreflight, tickets)
    case Malformed => (InternalError, tickets)
    case Post(qrCode) =>
      if QrMissing(qrCode) then (MissingQrCode, tickets)
      else
        match Lookup(tickets, qrCode.value, faults.lookupFails)
        case None => (NotFound, tickets)
        case Some(t) =>
          if t.isUsed then
            match Info(events, types, t)
            case None => (InternalError, tickets)
            case Some(info) => (AlreadyUsed(t.usedAt, info.ticketNumber, info.eventTitle, info.ticketType), tickets)
          else if faults.updateFails then (UpdateFailed, tickets)
          else
            var after := MarkUsed(tickets, t.id, usedAt);
            match Info(events, types, t)
            case None => (InternalError, after)
            case Some(info) => (Validated(info, validatedAt), after)
  }

  /** A missing or empty `qrCode` is answered 400 before any lookup, with nothing changed. */
  lemma MissingQrCodeRejected(events: seq<EventRow>, types: seq<TicketTypeRow>, tickets: seq<TicketRow>,
                              qrCode: Option<string>, faults: Faults, usedAt: Timestamp, validatedAt: Timestamp)
    requires QrMissing(qrCode)
    ensures Respond(events, types, tickets, Post(qrCode), faults, usedAt, validatedAt) == (MissingQrCode, tickets)
    ensures Status(MissingQrCode) == 400
  {
  }

  /** A payload no ticket carries is answered 404 `valid: false`, with nothing changed. */
  lemma UnknownQrCodeNotFound(events: seq<EventRow>, types: seq<TicketTypeRow>, tickets: seq<TicketRow>,
                              qrCode: string, faults: Faults, usedAt: Timestamp, validatedAt: Timestamp)
    requires qrCode != []
    requires forall k :: 0 <= k < |tickets| ==> tickets[k].qrCode != qrCode
    ensures Respond(events, types, tickets, Post(Some(qrCode)), faults, usedAt, validatedAt) == (NotFound, tickets)
  {
    SingleMissing(tickets, (t: TicketRow) => t.qrCode == qrCode);
  }

  /** A used ticket is answered 400 "already used" with its stored `used_at`, and is not
      written again. */
  lemma UsedTicketRejected(events: seq<EventRow>, types: seq<TicketTypeRow>, tickets: seq<TicketRow>,
                           j: int, faults: Faults, usedAt: Timestamp, validatedAt: Timestamp)
    requires 0 <= j < |tickets| && tickets[j].qrCode != [] && tickets[j].isUsed && !faults.lookupFails
    requires forall k :: 0 <= k < |tickets| && k != j ==> tickets[k].qrCode != tickets[j].qrCode
    requires Info(events, types, tickets[j]).Some?
    ensures var info := Info(events, types, tickets[j]).value;
            Respond(events, types, tickets, Post(Some(tickets[j].qrCode)), faults, usedAt, validatedAt)
              == (AlreadyUsed(tickets[j].usedAt, tickets[j].ticketNumber, info.eventTitle, info.ticketType), tickets)
  {
    SingleAt(tickets, (t: TicketRow) => t.qrCode == tickets[j].qrCode, j);
  }

  /** With unique ticket ids, a successful flip changes exactly the scanned row, setting
      `is_used` and `used_at`. */
  lemma FlipChangesOnlyScannedRow(events: seq<EventRow>, types: seq<TicketTypeRow>, tickets: seq<TicketRow>,
                                  j: int, faults: Faults, usedAt: Timestamp, validatedAt: Timestamp)
    requires UniqueTicketIds(tickets)
    requires 0 <= j < |tickets| && tickets[j].qrCode != [] && !tickets[j].isUsed
    requires !faults.lookupFails && !faults.updateFails
    requires forall k :: 0 <= k < |tickets| && k != j ==> tickets[k].qrCode != tickets[j].qrCode
    ensures Respond(events, types, tickets, Post(Some(tickets[j].qrCode)), faults, usedAt, validatedAt).1
              == tickets[j := tickets[j].(isUsed := true, usedAt := Some(usedAt))]
  {
    SingleAt(tickets, (t: TicketRow) => t.qrCode == tickets[j].qrCode, j);
  }

  /** Nothing resets `is_used`: once a scan has validated a ticket, scanning the same payload
      again is answered "already used", reporting the time of the first scan. */
  lemma SecondScanRejected(events: seq<EventRow>, types: seq<TicketTypeRow>, tickets: seq<TicketRow>,
                           qrCode: string, first: Faults, second: Faults,
                           usedAt: Timestamp, validatedAt: Timestamp, usedAt2: Timestamp, validatedAt2: Timestamp)
    requires Respond(events, types, tickets, Post(Some(qrCode)), first, usedAt, validatedAt).0.Validated?
    requires !second.lookupFails
    ensures var after := Respond(events, types, tickets, Post(Some(qrCode)), first, usedAt, validatedAt).1;
            var again := Respond(events, types, after, Post(Some(qrCode)), second, usedAt2, validatedAt2);
            again.0.AlreadyUsed? && again.0.usedAt == Some(usedAt) && again.1 == after
  {
    var p := (t: TicketRow) => t.qrCode == qrCode;
    var j := SingleIndex(tickets, p);
    var after := MarkUsed(tickets, tickets[j].id, usedAt);
    forall k | 0 <= k < |after| && k != j ensures !p(after[k]) {
      assert after[k].qrCode == tickets[k].qrCode;
    }
    SingleAt(after, p, j);
    assert Single(types, (ty: TicketTypeRow) => ty.id == after[j].ticketTypeId)
        == Single(types, (ty: TicketTypeRow) => ty.id == tickets[j].ticketTypeId);
  }

  /** The handler, as a step on the database: the same checks in the same order, ending in
      the in-place update of the ticket row. */
  method Handle(db: Database, req: Request, faults: Faults, usedAt: Timestamp, validatedAt: Timestamp)
    returns (resp: Response)
    modifies db
    ensures db.events == old(db.events) && db.ticketTypes == old(db.ticketTypes)
    ensures db.orders == old(db.orders) && db.orderItems == old(db.orderItems)
    ensures (resp, db.tickets) ==
            Respond(old(db.events), old(db.ticketTypes), old(db.tickets), req, faults, usedAt, validatedAt)
  {
    if req.Preflight? {
      return CorsPreflight;
    }
    if req.Malformed? {
      return InternalError;
    }
    if QrMissing(req.qrCode) {
      return MissingQrCode;
    }
    var found := Lookup(db.tickets, req.qrCode.value, faults.lookupFails);
    if found.None? {
      return NotFound;
    }
    var ticket := found.value;
    if ticket.isUsed {
      var info := Info(db.events, db.ticketTypes, ticket);
      if info.None? {
        return InternalError;
      }
      return AlreadyUsed(ticket.usedAt, info.value.ticketNumber, info.value.eventTitle, info.value.ticketType);
    }
    if faults.updateFails {
      return UpdateFailed;
    }
    db.tickets := MarkUsed(db.tickets, ticket.id, usedAt);
    var info := Info(db.events, db.ticketTypes, ticket);
    if info.None? {
      return InternalError;
    }
    return Validated(info.value, validatedAt);
  }
}
