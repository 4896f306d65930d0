/** The secure create-event form: the draft ticket list and its editing handlers, the
    validation that collects every failing message, and the guards of submission. */
module CreateEventModal {
  import opened Common
  import opened Security

  /** A ticket type of the form. Numbers typed into the form may be fractional. */
  datatype DraftTicket = DraftTicket(
    name: string,
    price: real,
    quantity: real,
    description: Option<string>,
    isPasswordProtected: Option<bool>,
    password: Option<string>)

  /** The event fields of the form. */
  datatype FormData = FormData(
    title: string,
    description: string,
    date: string,
    time: string,
    location: string,
    image: string)

  const DefaultImage := "https://images.unsplash.com/photo-1492684223066-81342ee5ff30?w=500&h=300&fit=crop"
  const EmptyForm := FormData([], [], [], [], [], DefaultImage)

  /** The two ticket types a fresh form starts with. */
  const DefaultTickets := [
    DraftTicket("Early Bird", 50.0, 100.0, Some("Limited time offer"), None, None),
    DraftTicket("Regular", 75.0, 200.0, Some("Standard admission"), None, None)]

  /** The cleared draft of the "add ticket type" fields. */
  const EmptyDraft := DraftTicket([], 0.0, 0.0, Some([]), Some(false), Some([]))

  const TitleLength := "Event title must be between 3 and 100 characters"
  const DateTimeRequired := "Date and time are required"
  const DateInPast := "Event date must be in the future"
  const LocationRequired := "Location is required"
  const TicketListRequired := "At least one ticket type is required"

  function InvalidPrice(name: string): string { "Invalid price for ticket \"" + name + "\"" }
  function InvalidQuantity(name: string): string { "Invalid quantity for ticket \"" + name + "\"" }
  function ShortPassword(name: string): string { "Password for \"" + name + "\" must be at least 4 characters" }

  // ---------------------------------------------------------------------------
  // validateForm
  // ---------------------------------------------------------------------------

  /** A protected ticket whose password is missing or shorter than 4 UTF-16 units. */
  predicate PasswordTooShort(t: DraftTicket) {
    t.isPasswordProtected == Some(true) && (t.password.None? || Utf16Length(t.password.value) < 4)
  }

  /** The messages for one ticket, in the order they are pushed. */
  function TicketMessages(t: DraftTicket): (ms: seq<string>)
    ensures ms == [] <==> ValidPrice(t.price) && ValidQuantity(t.quantity) && !PasswordTooShort(t)
    ensures |ms| <= 3
  {
    (if !ValidPrice(t.price) then [InvalidPrice(t.name)] else [])
    + (if !ValidQuantity(t.quantity) then [InvalidQuantity(t.name)] else [])
    + (if PasswordTooShort(t) then [ShortPassword(t.name)] else [])
  }

  /** The messages of every ticket, ticket after ticket. */
  function TicketErrors(tickets: seq<DraftTicket>): seq<string> {
    if tickets == [] then []
    else TicketErrors(tickets[..|tickets| - 1]) + TicketMessages(tickets[|tickets| - 1])
  }

  /** No ticket message is produced exactly when every ticket passes its three checks. */
  lemma {:induction false} TicketErrorsEmptyIff(tickets: seq<DraftTicket>)
    ensures TicketErrors(tickets) == [] <==> forall k :: 0 <= k < |tickets| ==> TicketMessages(tickets[k]) == []
  {
    if tickets != [] {
      var init := tickets[..|tickets| - 1];
      TicketErrorsEmptyIff(init);
      assert forall k :: 0 <= k < |init| ==> init[k] == tickets[k];
    }
  }

  /** The messages about the event fields, in check order. */
  function EventErrors(form: FormData, tickets: seq<DraftTicket>, parsedDate: Option<int>, now: int): seq<string> {
    (if !ValidEventTitle(form.title) then [TitleLength] else [])
    + (if form.date == [] || form.time == [] then [DateTimeRequired]
       else if !ValidEventDate(parsedDate, now) then [DateInPast] else [])
    + (if AllWhiteSpace(form.location) then [LocationRequired] else [])
    + (if tickets == [] then [TicketListRequired] else [])
  }

  /** Every failing message of the form. `parsedDate` is the instant `date + "T" + time`
      denotes and `now` the clock. */
  function FormErrors(form: FormData, tickets: seq<DraftTicket>, parsedDate: Option<int>, now: int): (r: seq<string>)
    ensures !ValidEventTitle(form.title) ==> TitleLength in r
    ensures AllWhiteSpace(form.location) ==> LocationRequired in r
    ensures tickets == [] ==> TicketListRequired in r
  {
    EventErrors(form, tickets, parsedDate, now) + TicketErrors(tickets)
  }

  /** Every check of the form, stated on its own. */
  predicate FormAcceptable(form: FormData, tickets: seq<DraftTicket>, parsedDate: Option<int>, now: int) {
    ValidEventTitle(form.title) && form.date != [] && form.time != [] && ValidEventDate(parsedDate, now)
    && !AllWhiteSpace(form.location) && tickets != []
    && forall k :: 0 <= k < |tickets| ==>
         ValidPrice(tickets[k].price) && ValidQuantity(tickets[k].quantity) && !PasswordTooShort(tickets[k])
  }

  /** validateForm succeeds exactly when every check holds. */
  lemma FormErrorsEmptyIff(form: FormData, tickets: seq<DraftTicket>, parsedDate: Option<int>, now: int)
    ensures FormErrors(form, tickets, parsedDate, now) == [] <==> FormAcceptable(form, tickets, parsedDate, now)
  {
    TicketErrorsEmptyIff(tickets);
  }

  /** Failures do not stop the checks: a bad title, a blank location and an empty ticket
      list are all reported, title first. */
  lemma AllFailuresReported(form: FormData, parsedDate: Option<int>, now: int)
    requires !ValidEventTitle(form.title) && AllWhiteSpace(form.location)
    ensures var errors := FormErrors(form, [], parsedDate, now);
            errors[0] == TitleLength && LocationRequired in errors && TicketListRequired in errors
  {
  }

  /** The pushes of validateForm for the event fields. */
  method PushEventErrors(form: FormData, tickets: seq<DraftTicket>, parsedDate: Option<int>, now: int)
    returns (errors: seq<string>)
    ensures errors == EventErrors(form, tickets, parsedDate, now)
  {
    var title := if !ValidEventTitle(form.title) then [TitleLength] else [];
    var date := if form.date == [] || form.time == [] then [DateTimeRequired]
                else if !ValidEventDate(parsedDate, now) then [DateInPast] else [];
    var location := if AllWhiteSpace(form.location) then [LocationRequired] else [];
    var list := if tickets == [] then [TicketListRequired] else [];
    errors := [];
    if !ValidEventTitle(form.title) {
      errors := errors + [TitleLength];
    }
    assert errors == title;
    if form.date == [] || form.time == [] {
      errors := errors + [DateTimeRequired];
    } else if !ValidEventDate(parsedDate, now) {
      errors := errors + [DateInPast];
    }
    assert errors == title + date;
    TrimEmptyIffBlank(form.location);
    if Trim(form.location) == [] {
      errors := errors + [LocationRequired];
    }
    assert errors == title + date + location;
    if |tickets| == 0 {
      errors := errors + [TicketListRequired];
    }
  }

  /** The pushes of validateForm for one ticket. */
  method PushTicketErrors(errors: seq<string>, t: DraftTicket) returns (out: seq<string>)
    ensures out == errors + TicketMessages(t)
  {
    out := errors;
    if !ValidPrice(t.price) {
      out := out + [InvalidPrice(t.name)];
    }
    if !ValidQuantity(t.quantity) {
      out := out + [InvalidQuantity(t.name)];
    }
    if t.isPasswordProtected == Some(true) && (t.password.None? || Utf16Length(t.password.value) < 4) {
      out := out + [ShortPassword(t.name)];
    }
  }

  /** The error list pushed by validateForm. */
  method CollectFormErrors(form: FormData, tickets: seq<DraftTicket>, parsedDate: Option<int>, now: int)
    returns (errors: seq<string>)
    ensures errors == FormErrors(form, tickets, parsedDate, now)
  {
    errors := PushEventErrors(form, tickets, parsedDate, now);
    ghost var head := errors;
    for i := 0 to |tickets|
      invariant errors == head + TicketErrors(tickets[..i])
    {
      errors := PushTicketErrors(errors, tickets[i]);
      assert tickets[..i + 1][..i] == tickets[..i];
    }
    assert tickets[..|tickets|] == tickets;
  }

  // ---------------------------------------------------------------------------
  // Editing the ticket list
  // ---------------------------------------------------------------------------

  /** `ticketTypes.filter((_, i) => i !== index)`, walking positions from `from`. */
  function DropPosition(tickets: seq<DraftTicket>, index: int, from: int): seq<DraftTicket> {
    if tickets == [] then []
    else (if from == index then [] else [tickets[0]]) + DropPosition(tickets[1..], index, from + 1)
  }

  lemma {:induction false} DropPositionAbsent(tickets: seq<DraftTicket>, index: int, from: int)
    requires index < from || index >= from + |tickets|
    ensures DropPosition(tickets, index, from) == tickets
  {
    if tickets != [] {
      DropPositionAbsent(tickets[1..], index, from + 1);
    }
  }

  /** removeTicketType: only position `index` goes, the others keep their order; an index
      outside the list removes nothing. */
  function RemoveAt(tickets: seq<DraftTicket>, index: int): (r: seq<DraftTicket>)
    ensures 0 <= index < |tickets| ==> r == tickets[..index] + tickets[index + 1..]
    ensures !(0 <= index < |tickets|) ==> r == tickets
  {
    RemoveAtSlices(tickets, index, 0);
    DropPosition(tickets, index, 0)
  }

  lemma {:induction false} RemoveAtSlices(tickets: seq<DraftTicket>, index: int, from: int)
    ensures from <= index < from + |tickets| ==>
              DropPosition(tickets, index, from) == tickets[..index - from] + tickets[index - from + 1..]
    ensures !(from <= index < from + |tickets|) ==> DropPosition(tickets, index, from) == tickets
  {
    if tickets == [] {
    } else if from == index {
      DropPositionAbsent(tickets[1..], index, from + 1);
    } else {
      RemoveAtSlices(tickets[1..], index, from + 1);
      if from < index < from + |tickets| {
        assert tickets[..index - from] == [tickets[0]] + tickets[1..][..index - from - 1];
        assert tickets[index - from + 1..] == tickets[1..][index - from..];
      } else {
        assert tickets == [tickets[0]] + tickets[1..];
      }
    }
  }

  /** One field of `updateTicketPassword(index, field, value)`. */
  datatype FieldUpdate =
    | SetName(name: string)
    | SetPrice(price: real)
    | SetQuantity(quantity: real)
    | SetDescription(description: Option<string>)
    | SetProtected(isPasswordProtected: Option<bool>)
    | SetPassword(password: Option<string>)

  /** `{ ...ticket, [field]: value }`. */
  function WithField(t: DraftTicket, f: FieldUpdate): DraftTicket {
    match f
    case SetName(v) => t.(name := v)
    case SetPrice(v) => t.(price := v)
    case SetQuantity(v) => t.(quantity := v)
    case SetDescription(v) => t.(description := v)
    case SetProtected(v) => t.(isPasswordProtected := v)
    case SetPassword(v) => t.(password := v)
  }

  /** Setting the password or the protection flag leaves the name, price, quantity and
      description as they were. */
  lemma AccessFieldsOnly(t: DraftTicket, f: FieldUpdate)
    requires f.SetPassword? || f.SetProtected?
    ensures var u := WithField(t, f);
            u.name == t.name && u.price == t.price && u.quantity == t.quantity && u.description == t.description
  {
  }

  /** updateTicketPassword: entry `index` gets the field, every other entry stays. */
  function UpdateAt(tickets: seq<DraftTicket>, index: int, f: FieldUpdate): (r: seq<DraftTicket>)
    ensures |r| == |tickets|
    ensures forall j :: 0 <= j < |tickets| && j != index ==> r[j] == tickets[j]
    ensures 0 <= index < |tickets| ==> r[index] == WithField(tickets[index], f)
  {
    seq(|tickets|, j requires 0 <= j < |tickets| => if j == index then WithField(tickets[j], f) else tickets[j])
  }

  /** addTicketType's guards: a blank name, an invalid price or an invalid quantity. */
  predicate DraftRejected(t: DraftTicket) {
    AllWhiteSpace(t.name) || !ValidPrice(t.price) || !ValidQuantity(t.quantity)
  }

  /** The entry appended by addTicketType: name and (non-empty) description sanitised. */
  function SanitizedTicket(t: DraftTicket, sanitize: string -> string): DraftTicket {
    t.(name := sanitize(t.name),
       description := if t.description.Some? && t.description.value != [] then Some(sanitize(t.description.value)) else None)
  }

  // ---------------------------------------------------------------------------
  // Submission
  // ---------------------------------------------------------------------------

  /** The data handed to `createEvent`: text fields sanitised, the image as `image_url`. */
  datatype Submission = Submission(
    title: string,
    description: string,
    date: string,
    time: string,
    location: string,
    imageUrl: string,
    tickets: seq<DraftTicket>)

  /** Sanitising touches only names and descriptions: a form that passed validation submits
      at least one ticket, and every submitted ticket would pass the ticket checks again. */
  lemma SubmittedTicketsStillValid(form: FormData, tickets: seq<DraftTicket>, parsedDate: Option<int>,
                                   now: int, sanitize: string -> string)
    requires FormAcceptable(form, tickets, parsedDate, now)
    ensures var s := SubmissionOf(form, tickets, sanitize);
            s.tickets != [] && forall k :: 0 <= k < |s.tickets| ==> TicketMessages(s.tickets[k]) == []
  {
  }

  function SubmissionOf(form: FormData, tickets: seq<DraftTicket>, sanitize: string -> string): (s: Submission)
    ensures |s.tickets| == |tickets|
    ensures forall k :: 0 <= k < |tickets| ==> s.tickets[k] == SanitizedTicket(tickets[k], sanitize)
  {
    Submission(sanitize(form.title), sanitize(form.description), form.date, form.time, sanitize(form.location),
               form.image, seq(|tickets|, k requires 0 <= k < |tickets| => SanitizedTicket(tickets[k], sanitize)))
  }

  /** How handleSubmit ended. `Submitted` means `createEvent` returned without throwing; for a
      signed-out user it returns early and nothing is created, but the form is reset all the
      same. `SubmitFailed` means `createEvent` threw. */
  datatype SubmitOutcome = RateLimited | Invalid | Submitted(submission: Submission) | SubmitFailed

  const SubmitKey := "create-event"
  const SubmitMaxAttempts := 3
  const SubmitWindowMs := 60000

  /** The form's state. */
  class Modal {
    var form: FormData
    var ticketTypes: seq<DraftTicket>
    var newTicket: DraftTicket
    var validationErrors: seq<string>

    constructor ()
      ensures form == EmptyForm && ticketTypes == DefaultTickets && newTicket == EmptyDraft
      ensures validationErrors == []
    {
      form := EmptyForm;
      ticketTypes := DefaultTickets;
      newTicket := EmptyDraft;
      validationErrors := [];
    }

    /** validateForm: the collected messages are shown, and the form passes when there are none. */
    method ValidateForm(parsedDate: Option<int>, now: int) returns (ok: bool)
      modifies this
      ensures validationErrors == FormErrors(form, ticketTypes, parsedDate, now)
      ensures ok <==> FormAcceptable(form, ticketTypes, parsedDate, now)
      ensures form == old(form) && ticketTypes == old(ticketTypes) && newTicket == old(newTicket)
    {
      var errors := CollectFormErrors(form, ticketTypes, parsedDate, now);
      validationErrors := errors;
      FormErrorsEmptyIff(form, ticketTypes, parsedDate, now);
      ok := |errors| == 0;
    }

    /** addTicketType: a rejected draft changes nothing; an accepted one is appended, once,
        and the draft is cleared. */
    method AddTicketType(sanitize: string -> string)
      modifies this
      ensures form == old(form) && validationErrors == old(validationErrors)
      ensures DraftRejected(old(newTicket)) ==> ticketTypes == old(ticketTypes) && newTicket == old(newTicket)
      ensures !DraftRejected(old(newTicket)) ==>
                ticketTypes == old(ticketTypes) + [SanitizedTicket(old(newTicket), sanitize)]
                && newTicket == EmptyDraft
    {
      TrimEmptyIffBlank(newTicket.name);
      if Trim(newTicket.name) == [] || !ValidPrice(newTicket.price) || !ValidQuantity(newTicket.quantity) {
        return;
      }
      ticketTypes := ticketTypes + [SanitizedTicket(newTicket, sanitize)];
      newTicket := EmptyDraft;
    }

    /** removeTicketType. */
    method RemoveTicketType(index: int)
      modifies this
      ensures ticketTypes == RemoveAt(old(ticketTypes), index)
      ensures form == old(form) && newTicket == old(newTicket) && validationErrors == old(validationErrors)
    {
      ticketTypes := RemoveAt(ticketTypes, index);
    }

    /** updateTicketPassword. */
    method UpdateTicketPassword(index: int, f: FieldUpdate)
      modifies this
      ensures ticketTypes == UpdateAt(old(ticketTypes), index, f)
      ensures form == old(form) && newTicket == old(newTicket) && validationErrors == old(validationErrors)
    {
      ticketTypes := UpdateAt(ticketTypes, index, f);
    }

    /** handleSubmit: the rate limit (3 per minute) is consulted before validation, an
        invalid form never reaches `createEvent`, and a call that does not throw resets the form.
        `createFails` says whether `createEvent` throws; the error is only logged. */
    method HandleSubmit(limiter: RateLimiter, now: int, parsedDate: Option<int>, sanitize: string -> string,
                        createFails: bool) returns (outcome: SubmitOutcome)
      requires limiter.Valid()
      modifies this, limiter
      ensures limiter.Valid()
      ensures var attempt := Attempt(old(limiter.attempts), SubmitKey, SubmitMaxAttempts, SubmitWindowMs, now);
              limiter.attempts == attempt.1 && (outcome == RateLimited <==> !attempt.0)
      ensures outcome == RateLimited ==> validationErrors == old(validationErrors)
      ensures outcome != RateLimited ==>
                (outcome == Invalid <==> !FormAcceptable(old(form), old(ticketTypes), parsedDate, now))
      ensures outcome != RateLimited ==> validationErrors == FormErrors(old(form), old(ticketTypes), parsedDate, now)
      ensures outcome.Submitted? || outcome == SubmitFailed ==> validationErrors == []
      ensures outcome.Submitted? ==>
                FormAcceptable(old(form), old(ticketTypes), parsedDate, now)
                && outcome.submission == SubmissionOf(old(form), old(ticketTypes), sanitize)
                && form == EmptyForm && ticketTypes == DefaultTickets
      ensures !outcome.Submitted? ==> form == old(form) && ticketTypes == old(ticketTypes)
      ensures newTicket == old(newTicket)
    {
      var allowed := limiter.IsAllowed(SubmitKey, SubmitMaxAttempts, SubmitWindowMs, now);
      if !allowed {
        return RateLimited;
      }
      outcome := SubmitValidForm(parsedDate, now, sanitize, createFails);
    }

    /** The part of handleSubmit after the rate limit let the call through. */
    method SubmitValidForm(parsedDate: Option<int>, now: int, sanitize: string -> string, createFails: bool)
      returns (outcome: SubmitOutcome)
      modifies this
      ensures outcome != RateLimited
      ensures outcome == Invalid <==> !FormAcceptable(old(form), old(ticketTypes), parsedDate, now)
      ensures validationErrors == FormErrors(old(form), old(ticketTypes), parsedDate, now)
      ensures outcome.Submitted? || outcome == SubmitFailed ==> validationErrors == []
      ensures outcome.Submitted? ==>
                outcome.submission == SubmissionOf(old(form), old(ticketTypes), sanitize)
                && form == EmptyForm && ticketTypes == DefaultTickets
      ensures !outcome.Submitted? ==> form == old(form) && ticketTypes == old(ticketTypes)
      ensures newTicket == old(newTicket)
    {
      ghost var form0, tickets0 := form, ticketTypes;
      var ok := ValidateForm(parsedDate, now);
      if !ok {
        return Invalid;
      }
      FormErrorsEmptyIff(form0, tickets0, parsedDate, now);
      var submission := SubmissionOf(form, ticketTypes, sanitize);
      if createFails {
        return SubmitFailed;
      }
      form := EmptyForm;
      ticketTypes := DefaultTickets;
      validationErrors := [];
      return Submitted(submission);
    }
  }
}
