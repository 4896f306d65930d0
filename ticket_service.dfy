/** The two read-only ticket-type lookups of the ticket service: the password check of
    the access gate and the current `sold` count that the order service reads back. */
module TicketService {
  import opened Common
  import opened Store

  /** verifyTicketPasswordInDatabase: the lookup by id must succeed and the stored
      `password_hash` text must equal the presented password; nothing is written. */
  function VerifyTicketPassword(types: seq<TicketTypeRow>, ticketTypeId: Id, password: string,
                                queryFails: bool): (ok: bool)
    ensures ok ==> !queryFails
    ensures ok ==> exists j :: 0 <= j < |types| && types[j].id == ticketTypeId
                                && types[j].passwordHash == Some(password)
  {
    match TypeById(types, ticketTypeId, queryFails)
    case None => false
    case Some(t) => t.passwordHash == Some(password)
  }

  /** With unique ids and a lookup that reaches the database, the check accepts exactly
      the stored password: plain text equality, no hashing. */
  lemma VerifyTicketPasswordExact(types: seq<TicketTypeRow>, j: int, password: string)
    requires UniqueTypeIds(types) && 0 <= j < |types|
    ensures VerifyTicketPassword(types, types[j].id, password, false) <==>
            types[j].passwordHash == Some(password)
  {
    TypeByIdAt(types, j);
  }

  /** An id with no row, or a failed query, is never verified, whatever the password. */
  lemma VerifyTicketPasswordMissing(types: seq<TicketTypeRow>, ticketTypeId: Id, password: string,
                                    queryFails: bool)
    requires queryFails || forall k :: 0 <= k < |types| ==> types[k].id != ticketTypeId
    ensures !VerifyTicketPassword(types, ticketTypeId, password, queryFails)
  {
    if !queryFails {
      TypeByIdMissing(types, ticketTypeId, queryFails);
    }
  }

  /** getCurrentSoldCount: the stored `sold` of the one row with this id, or 0 when the
      lookup fails (`sold || 0` leaves every integer but 0 unchanged, and 0 is 0). */
  function CurrentSoldCount(types: seq<TicketTypeRow>, ticketTypeId: Id, queryFails: bool): int {
    match TypeById(types, ticketTypeId, queryFails)
    case None => 0
    case Some(t) => t.sold
  }

  /** The count read is 0 after a failed query, and otherwise 0 or the `sold` of a row that
      carries the id. */
  lemma CurrentSoldCountReadsARow(types: seq<TicketTypeRow>, ticketTypeId: Id, queryFails: bool)
    ensures queryFails ==> CurrentSoldCount(types, ticketTypeId, queryFails) == 0
    ensures var r := CurrentSoldCount(types, ticketTypeId, queryFails);
            r == 0 || exists j :: 0 <= j < |types| && types[j].id == ticketTypeId && types[j].sold == r
  {
  }

  /** With unique ids and a lookup that reaches the database, the count is the stored one. */
  lemma CurrentSoldCountStored(types: seq<TicketTypeRow>, j: int)
    requires UniqueTypeIds(types) && 0 <= j < |types|
    ensures CurrentSoldCount(types, types[j].id, false) == types[j].sold
  {
    TypeByIdAt(types, j);
  }

  /** An id with no row reads as 0 sold. */
  lemma CurrentSoldCountMissing(types: seq<TicketTypeRow>, ticketTypeId: Id, queryFails: bool)
    requires forall k :: 0 <= k < |types| ==> types[k].id != ticketTypeId
    ensures CurrentSoldCount(types, ticketTypeId, queryFails) == 0
  {
    TypeByIdMissing(types, ticketTypeId, queryFails);
  }
}
