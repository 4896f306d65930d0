/** Event persistence: the rows built from the form on create, the partial update built
    field by field, the wholesale replacement of an event's ticket types, and the listing
    query. */
module EventDatabase {
  import opened Common
  import opened Store
  import opened EventHelpers

  datatype DbError = EventWriteFailed | TicketTypesWriteFailed

  /** An event together with its ticket types, as the service returns it. */
  datatype EventWithTypes = EventWithTypes(event: EventRow, ticketTypes: seq<TicketTypeRow>)

  // ---------------------------------------------------------------------------
  // Rows built from the form
  // ---------------------------------------------------------------------------

  /** The `events` row inserted on create: the date column is `date + "T" + time`, text
      fields are trimmed and absent ones stored as ''. */
  function EventInsertRow(d: CreateEventData, userId: Id, id: Id, now: Timestamp): (e: EventRow)
    ensures e.id == id && e.userId == userId && e.createdAt == now && e.updatedAt == now
    ensures e.date == d.date + "T" + d.time
    ensures e.title == Trim(d.title) && e.location == Trim(d.location)
    ensures e.description == Some(TrimmedOrEmpty(d.description)) && e.imageUrl == Some(OrEmpty(d.imageUrl))
    ensures e.overallTicketLimit == d.overallTicketLimit
  {
    EventRow(id, Trim(d.title), Some(TrimmedOrEmpty(d.description)), d.date + "T" + d.time,
             Trim(d.location), Some(OrEmpty(d.imageUrl)), d.overallTicketLimit, userId, now, now)
  }

  /** The `ticket_types` row for one form entry; `sold` takes the column default 0 and the
      password is stored as typed. */
  function TicketTypeRowFor(t: TicketInput, eventId: Id, id: Id, now: Timestamp): (row: TicketTypeRow)
    ensures row.id == id && row.eventId == eventId && row.sold == 0
    ensures row.name == Trim(t.name) && row.price == t.price && row.quantity == t.quantity
    ensures row.description == Some(TrimmedOrEmpty(t.description))
    ensures row.isPasswordProtected <==> t.isPasswordProtected == Some(true)
    ensures row.passwordHash == Some(OrEmpty(t.password))
  {
    TicketTypeRow(id, eventId, Trim(t.name), t.price, t.quantity, 0, Some(TrimmedOrEmpty(t.description)),
                  t.isPasswordProtected == Some(true), Some(OrEmpty(t.password)), now)
  }

  /** One row per form entry, in order; `newId(k)` is the generated id of the k-th. */
  function TicketTypeRows(eventId: Id, inputs: seq<TicketInput>, newId: nat -> Id, now: Timestamp)
    : (rows: seq<TicketTypeRow>)
    ensures |rows| == |inputs|
    ensures forall k :: 0 <= k < |inputs| ==> rows[k] == TicketTypeRowFor(inputs[k], eventId, newId(k), now)
  {
    seq(|inputs|, k requires 0 <= k < |inputs| => TicketTypeRowFor(inputs[k], eventId, newId(k), now))
  }

  /** All the rows built for one event belong to it. */
  lemma TicketTypeRowsOfEvent(eventId: Id, inputs: seq<TicketInput>, newId: nat -> Id, now: Timestamp)
    ensures TypesOfEvent(TicketTypeRows(eventId, inputs, newId, now), eventId)
            == TicketTypeRows(eventId, inputs, newId, now)
  {
    var rows := TicketTypeRows(eventId, inputs, newId, now);
    FilterAll(rows, (t: TicketTypeRow) => t.eventId == eventId);
  }

  /** A form that passed validateEventData is stored with a title and a location, and its
      ticket_types rows are named, priced at 0 or more, with a positive capacity and nothing
      sold. */
  lemma ValidatedEventRowsNotBlank(d: CreateEventData, userId: Id, eventId: Id, newId: nat -> Id,
                                   now: Timestamp)
    requires ValidateEventData(d).None?
    ensures var e := EventInsertRow(d, userId, eventId, now);
            e.title != [] && e.location != [] && e.date != []
    ensures var rows := TicketTypeRows(eventId, d.ticketTypes, newId, now);
            rows != [] && forall k :: 0 <= k < |rows| ==>
              rows[k].name != [] && rows[k].price >= 0.0 && rows[k].quantity > 0 && rows[k].sold == 0
  {
    var rows := TicketTypeRows(eventId, d.ticketTypes, newId, now);
    forall k | 0 <= k < |rows|
      ensures rows[k].name != [] && rows[k].price >= 0.0 && rows[k].quantity > 0 && rows[k].sold == 0
    {
      assert TicketError(d.ticketTypes[k]).None?;
    }
  }

  /** createEventInDatabase. The event is inserted first; a failed ticket-type insert is
      rethrown and the event stays. */
  method CreateEventInDatabase(db: Database, d: CreateEventData, userId: Id, eventId: Id,
                               newTypeId: nat -> Id, now: Timestamp,
                               eventInsertFails: bool, typesInsertFails: bool)
    returns (r: Result<EventWithTypes, DbError>)
    modifies db
    ensures db.orders == old(db.orders) && db.orderItems == old(db.orderItems) && db.tickets == old(db.tickets)
    ensures eventInsertFails ==> r == Err(EventWriteFailed) && db.events == old(db.events)
                                 && db.ticketTypes == old(db.ticketTypes)
    ensures !eventInsertFails ==> db.events == old(db.events) + [EventInsertRow(d, userId, eventId, now)]
    ensures !eventInsertFails && typesInsertFails ==>
              r == Err(TicketTypesWriteFailed) && db.ticketTypes == old(db.ticketTypes)
    ensures !eventInsertFails && !typesInsertFails ==>
              var rows := TicketTypeRows(eventId, d.ticketTypes, newTypeId, now);
              r == Ok(EventWithTypes(EventInsertRow(d, userId, eventId, now), rows))
              && db.ticketTypes == old(db.ticketTypes) + rows
  {
    if eventInsertFails {
      return Err(EventWriteFailed);
    }
    var eventRow := EventInsertRow(d, userId, eventId, now);
    db.events := db.events + [eventRow];
    if typesInsertFails {
      return Err(TicketTypesWriteFailed);
    }
    var rows := TicketTypeRows(eventRow.id, d.ticketTypes, newTypeId, now);
    db.ticketTypes := db.ticketTypes + rows;
    return Ok(EventWithTypes(eventRow, rows));
  }

  // ---------------------------------------------------------------------------
  // Partial update
  // ---------------------------------------------------------------------------

  /** Partial<CreateEventData>: None is an undefined field. The limit may be set to null. */
  datatype EventPatch = EventPatch(
    title: Option<string>,
    description: Option<string>,
    date: Option<string>,
    time: Option<string>,
    location: Option<string>,
    imageUrl: Option<string>,
    overallTicketLimit: Option<Option<int>>,
    ticketTypes: Option<seq<TicketInput>>)

  /** The `updateData` object: None is a key left out. */
  datatype UpdateData = UpdateData(
    title: Option<string>,
    description: Option<string>,
    date: Option<string>,
    location: Option<string>,
    imageUrl: Option<string>,
    overallTicketLimit: Option<Option<int>>,
    updatedAt: Timestamp)

  /** A JavaScript-truthy string: present and non-empty. */
  predicate Truthy(s: Option<string>) {
    s.Some? && s.value != []
  }

  /** `updateData`, filled key by key. */
  function BuildUpdateData(p: EventPatch, now: Timestamp): (u: UpdateData)
    ensures u.title.Some? <==> Truthy(p.title)
    ensures u.location.Some? <==> Truthy(p.location)
    ensures u.date.Some? <==> Truthy(p.date) && Truthy(p.time)
    ensures u.date.Some? ==> u.date.value == p.date.value + "T" + p.time.value
    ensures u.description.Some? <==> p.description.Some?
    ensures u.imageUrl == p.imageUrl && u.overallTicketLimit == p.overallTicketLimit
    ensures u.updatedAt == now
  {
    UpdateData(
      if Truthy(p.title) then Some(Trim(p.title.value)) else None,
      if p.description.Some? then Some(Trim(p.description.value)) else None,
      if Truthy(p.date) && Truthy(p.time) then Some(p.date.value + "T" + p.time.value) else None,
      if Truthy(p.location) then Some(Trim(p.location.value)) else None,
      p.imageUrl,
      p.overallTicketLimit,
      now)
  }

  /** The truthiness guard looks at the untrimmed title: a title of spaces passes it and is
      written as the empty string. */
  lemma BlankTitleUpdateWritesEmpty(p: EventPatch, now: Timestamp)
    requires p.title.Some? && p.title.value != [] && AllWhiteSpace(p.title.value)
    ensures BuildUpdateData(p, now).title == Some([])
  {
    TrimEmptyIffBlank(p.title.value);
  }

  /** The row after `.update(updateData)`: keys left out keep their stored value. */
  function ApplyUpdate(e: EventRow, u: UpdateData): (r: EventRow)
    ensures r.id == e.id && r.userId == e.userId && r.createdAt == e.createdAt && r.updatedAt == u.updatedAt
    ensures u.title.None? ==> r.title == e.title
    ensures u.location.None? ==> r.location == e.location
    ensures u.date.None? ==> r.date == e.date
    ensures u.description.None? ==> r.description == e.description
    ensures u.imageUrl.None? ==> r.imageUrl == e.imageUrl
    ensures u.overallTicketLimit.None? ==> r.overallTicketLimit == e.overallTicketLimit
  {
    e.(title := if u.title.Some? then u.title.value else e.title,
       description := if u.description.Some? then u.description else e.description,
       date := if u.date.Some? then u.date.value else e.date,
       location := if u.location.Some? then u.location.value else e.location,
       imageUrl := if u.imageUrl.Some? then u.imageUrl else e.imageUrl,
       overallTicketLimit := if u.overallTicketLimit.Some? then u.overallTicketLimit.value else e.overallTicketLimit,
       updatedAt := u.updatedAt)
  }

  /** What the stored row holds after an update from a patch: a truthy title or location is
      written trimmed, a date only together with a time, a defined description trimmed, a
      defined image or limit as given; every other field keeps its stored value, and
      `updated_at` is the clock reading. */
  lemma PatchReadsBack(e: EventRow, p: EventPatch, now: Timestamp)
    ensures var r := ApplyUpdate(e, BuildUpdateData(p, now));
            r.id == e.id && r.userId == e.userId && r.createdAt == e.createdAt && r.updatedAt == now
            && r.title == (if Truthy(p.title) then Trim(p.title.value) else e.title)
            && r.location == (if Truthy(p.location) then Trim(p.location.value) else e.location)
            && r.date == (if Truthy(p.date) && Truthy(p.time) then p.date.value + "T" + p.time.value else e.date)
            && r.description == (if p.description.Some? then Some(Trim(p.description.value)) else e.description)
            && r.imageUrl == (if p.imageUrl.Some? then p.imageUrl else e.imageUrl)
            && r.overallTicketLimit == (if p.overallTicketLimit.Some? then p.overallTicketLimit.value
                                        else e.overallTicketLimit)
  {
  }

  /** A patch that defines no field still rewrites `updated_at` and nothing else. */
  lemma EmptyPatchOnlyStamps(e: EventRow, now: Timestamp)
    ensures ApplyUpdate(e, BuildUpdateData(EventPatch(None, None, None, None, None, None, None, None), now))
            == e.(updatedAt := now)
  {
  }

  /** Sending the same update twice leaves the table as sending it once. */
  lemma UpdateIsIdempotent(events: seq<EventRow>, eventId: Id, u: UpdateData)
    ensures UpdateEvents(UpdateEvents(events, eventId, u), eventId, u) == UpdateEvents(events, eventId, u)
  {
  }

  /** `.update(updateData).eq('id', eventId)` on the events table. */
  function UpdateEvents(events: seq<EventRow>, eventId: Id, u: UpdateData): (r: seq<EventRow>)
    ensures |r| == |events|
    ensures forall k :: 0 <= k < |events| ==>
              r[k] == if events[k].id == eventId then ApplyUpdate(events[k], u) else events[k]
  {
    seq(|events|, k requires 0 <= k < |events| =>
      if events[k].id == eventId then ApplyUpdate(events[k], u) else events[k])
  }

  /** What the database answers during an update: a failed event update, whether the
      unchecked delete of the old ticket types took effect, and failed insert or fetch. */
  datatype UpdateFaults = UpdateFaults(eventUpdateFails: bool, deleteApplied: bool,
                                       typesInsertFails: bool, typesFetchFails: bool)

  /** The ticket types that survive `.delete().eq('event_id', eventId)`. */
  function WithoutEvent(types: seq<TicketTypeRow>, eventId: Id): seq<TicketTypeRow> {
    Filter(types, (t: TicketTypeRow) => t.eventId != eventId)
  }

  /** updateEventInDatabase. The event row is updated first; when new ticket types are given,
      the old ones are deleted (result unchecked) and the new ones inserted. */
  method UpdateEventInDatabase(db: Database, eventId: Id, p: EventPatch, now: Timestamp,
                               newTypeId: nat -> Id, faults: UpdateFaults)
    returns (r: Result<EventWithTypes, DbError>)
    modifies db
    ensures db.orders == old(db.orders) && db.orderItems == old(db.orderItems) && db.tickets == old(db.tickets)
    ensures var target := Single(old(db.events), (e: EventRow) => e.id == eventId);
            faults.eventUpdateFails || target.None? ==>
              r == Err(EventWriteFailed) && db.events == old(db.events) && db.ticketTypes == old(db.ticketTypes)
    ensures var target := Single(old(db.events), (e: EventRow) => e.id == eventId);
            !faults.eventUpdateFails && target.Some? ==>
              var u := BuildUpdateData(p, now);
              var updated := ApplyUpdate(target.value, u);
              var kept := if faults.deleteApplied then WithoutEvent(old(db.ticketTypes), eventId)
                          else old(db.ticketTypes);
              var rows := TicketTypeRows(eventId, if p.ticketTypes.Some? then p.ticketTypes.value else [], newTypeId, now);
              db.events == UpdateEvents(old(db.events), eventId, u)
              && (p.ticketTypes.Some? && faults.typesInsertFails ==>
                    r == Err(TicketTypesWriteFailed) && db.ticketTypes == kept)
              && (p.ticketTypes.Some? && !faults.typesInsertFails ==>
                    r == Ok(EventWithTypes(updated, rows)) && db.ticketTypes == kept + rows)
              && (p.ticketTypes.None? ==>
                    db.ticketTypes == old(db.ticketTypes)
                    && r == Ok(EventWithTypes(updated, if faults.typesFetchFails then []
                                                       else TypesOfEvent(old(db.ticketTypes), eventId))))
  {
    var u := BuildUpdateData(p, now);
    var target := Single(db.events, (e: EventRow) => e.id == eventId);
    if faults.eventUpdateFails || target.None? {
      return Err(EventWriteFailed);
    }
    db.events := UpdateEvents(db.events, eventId, u);
    var updated := ApplyUpdate(target.value, u);
    if p.ticketTypes.Some? {
      if faults.deleteApplied {
        db.ticketTypes := WithoutEvent(db.ticketTypes, eventId);
      }
      if faults.typesInsertFails {
        return Err(TicketTypesWriteFailed);
      }
      var rows := TicketTypeRows(eventId, p.ticketTypes.value, newTypeId, now);
      db.ticketTypes := db.ticketTypes + rows;
      return Ok(EventWithTypes(updated, rows));
    }
    var types := if faults.typesFetchFails then [] else TypesOfEvent(db.ticketTypes, eventId);
    return Ok(EventWithTypes(updated, types));
  }

  /** After a replacement whose delete took effect, the event's ticket types are exactly the
      new rows, all with `sold` = 0: what was sold before is no longer recorded. */
  lemma ReplacementDiscardsSold(types: seq<TicketTypeRow>, eventId: Id, inputs: seq<TicketInput>,
                                newId: nat -> Id, now: Timestamp)
    ensures var rows := TicketTypeRows(eventId, inputs, newId, now);
            TypesOfEvent(WithoutEvent(types, eventId) + rows, eventId) == rows
            && forall k :: 0 <= k < |rows| ==> rows[k].sold == 0
  {
    var p := (t: TicketTypeRow) => t.eventId == eventId;
    var rows := TicketTypeRows(eventId, inputs, newId, now);
    FilterAppend(WithoutEvent(types, eventId), rows, p);
    var kept := WithoutEvent(types, eventId);
    forall k | 0 <= k < |kept| ensures !p(kept[k]) {
      assert kept[k] in kept;
    }
    FilterNone(kept, p);
    TicketTypeRowsOfEvent(eventId, inputs, newId, now);
  }

  /** When the unchecked delete did not take effect, the new rows are added beside the old
      ones: the event ends up with both sets. */
  lemma UnappliedDeleteDuplicates(types: seq<TicketTypeRow>, eventId: Id, inputs: seq<TicketInput>,
                                  newId: nat -> Id, now: Timestamp)
    ensures var rows := TicketTypeRows(eventId, inputs, newId, now);
            TypesOfEvent(types + rows, eventId) == TypesOfEvent(types, eventId) + rows
  {
    FilterAppend(types, TicketTypeRows(eventId, inputs, newId, now), (t: TicketTypeRow) => t.eventId == eventId);
    TicketTypeRowsOfEvent(eventId, inputs, newId, now);
  }

  // ---------------------------------------------------------------------------
  // Listing
  // ---------------------------------------------------------------------------

  predicate SortedNewestFirst(events: seq<EventRow>) {
    forall i, j :: 0 <= i < j < |events| ==> events[i].createdAt >= events[j].createdAt
  }

  /** One insertion step: `e` goes before the first row that is strictly older. */
  function InsertNewestFirst(e: EventRow, sorted: seq<EventRow>): (r: seq<EventRow>)
    ensures |r| == |sorted| + 1
  {
    if sorted == [] then [e]
    else if e.createdAt >= sorted[0].createdAt then [e] + sorted
    else [sorted[0]] + InsertNewestFirst(e, sorted[1..])
  }

  lemma {:induction false} InsertKeepsRows(e: EventRow, sorted: seq<EventRow>)
    ensures multiset(InsertNewestFirst(e, sorted)) == multiset(sorted) + multiset{e}
  {
    if sorted != [] && e.createdAt < sorted[0].createdAt {
      InsertKeepsRows(e, sorted[1..]);
      assert sorted == [sorted[0]] + sorted[1..];
    }
  }

  /** The inserted row or the old first row comes first. */
  lemma InsertHead(e: EventRow, sorted: seq<EventRow>)
    ensures var r := InsertNewestFirst(e, sorted);
            r[0] == e || (sorted != [] && r[0] == sorted[0])
  {
  }

  lemma {:induction false} InsertKeepsOrder(e: EventRow, sorted: seq<EventRow>)
    requires SortedNewestFirst(sorted)
    ensures SortedNewestFirst(InsertNewestFirst(e, sorted))
  {
    if sorted != [] && e.createdAt < sorted[0].createdAt {
      var tail := sorted[1..];
      InsertKeepsOrder(e, tail);
      InsertHead(e, tail);
      var rest := InsertNewestFirst(e, tail);
      var r := InsertNewestFirst(e, sorted);
      assert r == [sorted[0]] + rest;
      assert sorted[0].createdAt >= rest[0].createdAt;
      forall i, j | 0 <= i < j < |r| ensures r[i].createdAt >= r[j].createdAt {
        assert r[j] == rest[j - 1];
        if i > 0 {
          assert r[i] == rest[i - 1];
        } else if j > 1 {
          assert rest[0].createdAt >= rest[j - 1].createdAt;
        }
      }
    }
  }

  /** `.order('created_at', {ascending: false})`; rows with equal times keep no particular
      order in the database, and this model puts them in table order. */
  function NewestFirst(events: seq<EventRow>): (r: seq<EventRow>)
    ensures |r| == |events|
  {
    if events == [] then [] else InsertNewestFirst(events[0], NewestFirst(events[1..]))
  }

  /** The ordering is a permutation of the selected rows, newest first. */
  lemma {:induction false} NewestFirstSortsRows(events: seq<EventRow>)
    ensures SortedNewestFirst(NewestFirst(events))
    ensures multiset(NewestFirst(events)) == multiset(events)
  {
    if events != [] {
      NewestFirstSortsRows(events[1..]);
      InsertKeepsOrder(events[0], NewestFirst(events[1..]));
      InsertKeepsRows(events[0], NewestFirst(events[1..]));
      assert events == [events[0]] + events[1..];
    }
  }

  /** The events the query selects: all of them, or the user's when a user id is given. */
  function SelectedEvents(events: seq<EventRow>, userId: Option<string>): seq<EventRow> {
    if Truthy(userId) then Filter(events, (e: EventRow) => e.userId == userId.value) else events
  }

  /** fetchEventsFromDatabase: the selected events, newest first, each with its ticket types;
      any error yields the empty list. */
  function FetchEvents(events: seq<EventRow>, types: seq<TicketTypeRow>, userId: Option<string>,
                       queryFails: bool): (r: seq<EventWithTypes>)
    ensures queryFails ==> r == []
    ensures !queryFails ==> |r| == |SelectedEvents(events, userId)|
    ensures forall k :: 0 <= k < |r| ==> r[k].ticketTypes == TypesOfEvent(types, r[k].event.id)
  {
    if queryFails then []
    else
      var ordered := NewestFirst(SelectedEvents(events, userId));
      seq(|ordered|, k requires 0 <= k < |ordered| =>
        EventWithTypes(ordered[k], TypesOfEvent(types, ordered[k].id)))
  }

  /** Without a user id every event is listed; with one, exactly the user's events; in both
      cases each once and newest first. */
  lemma FetchEventsListsSelection(events: seq<EventRow>, types: seq<TicketTypeRow>, userId: Option<string>)
    ensures var r := FetchEvents(events, types, userId, false);
            multiset(seq(|r|, k requires 0 <= k < |r| => r[k].event)) == multiset(SelectedEvents(events, userId))
            && (forall i, j :: 0 <= i < j < |r| ==> r[i].event.createdAt >= r[j].event.createdAt)
            && (Truthy(userId) ==> forall k :: 0 <= k < |r| ==> r[k].event.userId == userId.value)
  {
    var selected := SelectedEvents(events, userId);
    var r := FetchEvents(events, types, userId, false);
    NewestFirstSortsRows(selected);
    var ordered := NewestFirst(selected);
    assert seq(|r|, k requires 0 <= k < |r| => r[k].event) == ordered;
    if Truthy(userId) {
      forall k | 0 <= k < |r| ensures r[k].event.userId == userId.value {
        assert r[k].event == ordered[k];
        assert ordered[k] in multiset(selected);
        assert ordered[k] in selected;
      }
    }
  }
}
