/** The organiser's report page: the search and event filters over the purchase records and
    the attendance statistics, and the three totals shown above the table. */
module TicketTrackingPage {
  import opened Common
  import opened Store
  import opened TicketTrackingHook

  /** The value of the event selector that shows every event. */
  const AllEvents := "all"

  // ---------------------------------------------------------------------------
  // Filters
  // ---------------------------------------------------------------------------

  /** `field.toLowerCase().includes(term.toLowerCase())`. */
  predicate MatchesTerm(field: string, term: string) {
    Includes(ToLower(field), ToLower(term))
  }

  /** The search box matches a record's customer name, email or event title. */
  predicate MatchesSearch(p: Purchase, term: string) {
    MatchesTerm(p.userName, term) || MatchesTerm(p.userEmail, term) || MatchesTerm(p.eventTitle, term)
  }

  predicate MatchesEvent(p: Purchase, selectedEvent: string) {
    selectedEvent == AllEvents || p.eventId == selectedEvent
  }

  /** filteredPurchases: the records passing both the search and the event selector, in
      report order. */
  function FilteredPurchases(purchases: seq<Purchase>, term: string, selectedEvent: string): (r: seq<Purchase>)
    ensures |r| <= |purchases|
    ensures forall p :: p in r <==> p in purchases && MatchesSearch(p, term) && MatchesEvent(p, selectedEvent)
  {
    Filter(purchases, (p: Purchase) => MatchesSearch(p, term) && MatchesEvent(p, selectedEvent))
  }

  /** filteredAttendanceStats: the search box matches a customer's name or email only; the
      event selector does not apply to this view. */
  function FilteredAttendance(stats: seq<Stats>, term: string): (r: seq<Stats>)
    ensures |r| <= |stats|
    ensures forall s :: s in r <==> s in stats && (MatchesTerm(s.userName, term) || MatchesTerm(s.userEmail, term))
  {
    Filter(stats, (s: Stats) => MatchesTerm(s.userName, term) || MatchesTerm(s.userEmail, term))
  }

  lemma ToLowerIdempotent(s: string)
    ensures ToLower(ToLower(s)) == ToLower(s)
  {
    assert forall i :: 0 <= i < |s| ==> ToLowerChar(ToLowerChar(s[i])) == ToLowerChar(s[i]);
  }

  /** The search ignores case on both sides: lowering the term or the field first matches
      the same records. */
  lemma SearchIgnoresCase(field: string, term: string)
    ensures MatchesTerm(field, term) <==> MatchesTerm(field, ToLower(term))
    ensures MatchesTerm(field, term) <==> MatchesTerm(ToLower(field), term)
  {
    ToLowerIdempotent(term);
    ToLowerIdempotent(field);
  }

  /** With an empty search box and "all" selected, every record is listed. */
  lemma EmptySearchKeepsAll(purchases: seq<Purchase>)
    ensures FilteredPurchases(purchases, "", AllEvents) == purchases
  {
    forall k | 0 <= k < |purchases|
      ensures MatchesSearch(purchases[k], "") && MatchesEvent(purchases[k], AllEvents)
    {
      IncludesEmpty(ToLower(purchases[k].userName));
    }
    FilterAll(purchases, (p: Purchase) => MatchesSearch(p, "") && MatchesEvent(p, AllEvents));
  }

  /** With an empty search box every customer's statistics are listed. */
  lemma EmptySearchKeepsAllCustomers(stats: seq<Stats>)
    ensures FilteredAttendance(stats, "") == stats
  {
    forall k | 0 <= k < |stats| ensures MatchesTerm(stats[k].userName, "") {
      IncludesEmpty(ToLower(stats[k].userName));
    }
    FilterAll(stats, (s: Stats) => MatchesTerm(s.userName, "") || MatchesTerm(s.userEmail, ""));
  }

  lemma ToLowerAppend(a: string, b: string)
    ensures ToLower(a + b) == ToLower(a) + ToLower(b)
  {
  }

  /** A field containing a term contains every prefix of it. */
  lemma IncludesPrefix(s: string, t: string, more: string)
    requires Includes(s, t + more)
    ensures Includes(s, t)
  {
    var i :| 0 <= i <= |s| - |t + more| && OccursAt(s, t + more, i);
    assert s[i..i + |t|] == (t + more)[..|t|] == t;
    assert OccursAt(s, t, i);
  }

  lemma LongerTermMatchesLess(field: string, term: string, more: string)
    requires MatchesTerm(field, term + more)
    ensures MatchesTerm(field, term)
  {
    ToLowerAppend(term, more);
    IncludesPrefix(ToLower(field), ToLower(term), ToLower(more));
  }

  /** Typing further characters into the search box only narrows the list. */
  lemma TypingNarrowsPurchases(purchases: seq<Purchase>, term: string, more: string, selectedEvent: string)
    ensures forall p :: p in FilteredPurchases(purchases, term + more, selectedEvent)
                        ==> p in FilteredPurchases(purchases, term, selectedEvent)
  {
    forall p | p in FilteredPurchases(purchases, term + more, selectedEvent)
      ensures p in FilteredPurchases(purchases, term, selectedEvent)
    {
      if MatchesTerm(p.userName, term + more) {
        LongerTermMatchesLess(p.userName, term, more);
      } else if MatchesTerm(p.userEmail, term + more) {
        LongerTermMatchesLess(p.userEmail, term, more);
      } else {
        LongerTermMatchesLess(p.eventTitle, term, more);
      }
    }
  }

  /** A record found through its customer's email has that customer's statistics listed in
      the attendance view under the same search; a record found only through its event
      title does not bring its customer along. */
  lemma CustomerFoundByEmailIsListed(purchases: seq<Purchase>, p: Purchase, term: string)
    requires p in purchases && MatchesTerm(p.userEmail, term)
    ensures exists s :: s in FilteredAttendance(Values(Aggregate(purchases)), term) && s.userEmail == p.userEmail
  {
    var email := p.userEmail;
    AggregateSpec(purchases, email);
    var rs := RecordsOf(purchases, email);
    assert p in rs;
    var es := Aggregate(purchases);
    var s := Expected(rs);
    assert rs[0] in rs;
    var i :| 0 <= i < |es| && es[i] == Entry(email, s);
    assert Values(es)[i] == s;
    assert s in FilteredAttendance(Values(es), term);
  }

  // ---------------------------------------------------------------------------
  // Totals
  // ---------------------------------------------------------------------------

  /** The tickets of the statistics entries, summed. */
  function StatsTickets(es: seq<Entry<Stats>>): int {
    if es == [] then 0 else es[0].value.totalTickets + StatsTickets(es[1..])
  }

  /** The amounts of the statistics entries, summed. */
  function StatsSpent(es: seq<Entry<Stats>>): real {
    if es == [] then 0.0 else es[0].value.totalSpent + StatsSpent(es[1..])
  }

  function TicketsAt(es: seq<Entry<Stats>>, k: string): int {
    match Lookup(es, k)
    case Some(s) => s.totalTickets
    case None => 0
  }

  function SpentAt(es: seq<Entry<Stats>>, k: string): real {
    match Lookup(es, k)
    case Some(s) => s.totalSpent
    case None => 0.0
  }

  lemma {:induction false} StatsAfterPut(es: seq<Entry<Stats>>, k: string, v: Stats)
    requires UniqueKeys(es)
    ensures StatsTickets(Put(es, k, v)) == StatsTickets(es) - TicketsAt(es, k) + v.totalTickets
    ensures StatsSpent(Put(es, k, v)) == StatsSpent(es) - SpentAt(es, k) + v.totalSpent
  {
    if es == [] {
      assert Put(es, k, v) == [Entry(k, v)];
    } else if es[0].key == k {
      assert forall i :: 1 <= i < |es| ==> es[i].key != k;
      assert Put(es, k, v) == [Entry(k, v)] + es[1..];
    } else {
      UniqueKeysTail(es);
      PutCons(es, k, v);
      StatsAfterPut(es[1..], k, v);
      assert Put(es, k, v)[1..] == Put(es[1..], k, v);
    }
  }

  /** One more record adds its quantity and amount to the statistics' sums. */
  lemma AddPurchaseSums(es: seq<Entry<Stats>>, p: Purchase)
    requires UniqueKeys(es)
    ensures StatsTickets(AddPurchase(es, p)) == StatsTickets(es) + p.quantity
    ensures StatsSpent(AddPurchase(es, p)) == StatsSpent(es) + p.totalPrice
  {
    match Lookup(es, p.userEmail)
    case Some(s) => StatsAfterPut(es, p.userEmail, Bump(s, p));
    case None => StatsAfterPut(es, p.userEmail, Fresh(p));
  }

  /** getTotalTicketsSold and getTotalRevenue (the `reduce` over the list is `TicketsOf` and
      `SpentOf`) agree with the attendance view: over the same records, the tickets sold and
      the revenue are the sums of the customers' totals. */
  lemma {:induction false} TotalsMatchAttendance(purchases: seq<Purchase>)
    ensures TicketsOf(purchases) == StatsTickets(Aggregate(purchases))
    ensures SpentOf(purchases) == StatsSpent(Aggregate(purchases))
  {
    if purchases != [] {
      var init := purchases[..|purchases| - 1];
      TotalsMatchAttendance(init);
      AggregateSpec(init, "");
      AddPurchaseSums(Aggregate(init), purchases[|purchases| - 1]);
    }
  }

  /** Appending records adds their totals: the figures of a list are the sums of the figures
      of its parts. */
  lemma {:induction false} TotalsAppend(a: seq<Purchase>, b: seq<Purchase>)
    ensures TicketsOf(a + b) == TicketsOf(a) + TicketsOf(b)
    ensures SpentOf(a + b) == SpentOf(a) + SpentOf(b)
  {
    if b == [] {
      assert a + b == a;
    } else {
      var bi := b[..|b| - 1];
      TotalsAppend(a, bi);
      assert (a + b)[..|a + b| - 1] == a + bi;
      assert (a + b)[|a + b| - 1] == b[|b| - 1];
    }
  }

  /** getUniqueCustomers: `new Set(list.map(p => p.userEmail)).size`. */
  function Emails(purchases: seq<Purchase>): (r: set<string>)
    ensures forall e :: e in r <==> exists k :: 0 <= k < |purchases| && purchases[k].userEmail == e
  {
    set k | 0 <= k < |purchases| :: purchases[k].userEmail
  }

  function UniqueCustomers(purchases: seq<Purchase>): (n: nat)
    ensures n <= |purchases|
    ensures n == 0 <==> purchases == []
  {
    EmailsBound(purchases);
    assert purchases != [] ==> purchases[0].userEmail in Emails(purchases);
    |Emails(purchases)|
  }

  lemma EmailsSnoc(init: seq<Purchase>, last: Purchase)
    ensures Emails(init + [last]) == Emails(init) + {last.userEmail}
  {
    var all := init + [last];
    forall e | e in Emails(all) ensures e in Emails(init) + {last.userEmail} {
      var k :| 0 <= k < |all| && all[k].userEmail == e;
      if k < |init| {
        assert init[k] == all[k];
      } else {
        assert all[k] == last;
      }
    }
    forall e | e in Emails(init) ensures e in Emails(all) {
      var k :| 0 <= k < |init| && init[k].userEmail == e;
      assert all[k] == init[k];
    }
    assert all[|init|] == last;
  }

  lemma {:induction false} EmailsBound(purchases: seq<Purchase>)
    ensures |Emails(purchases)| <= |purchases|
  {
    if purchases != [] {
      var init := purchases[..|purchases| - 1];
      EmailsBound(init);
      EmailsSnoc(init, purchases[|purchases| - 1]);
      assert purchases == init + [purchases[|purchases| - 1]];
    }
  }

  function Keys<V>(es: seq<Entry<V>>): set<string> {
    set k | 0 <= k < |es| :: es[k].key
  }

  /** Unique keys number as many as the entries. */
  lemma {:induction false} KeysCount<V>(es: seq<Entry<V>>)
    requires UniqueKeys(es)
    ensures |Keys(es)| == |es|
  {
    if es != [] {
      var tail := es[1..];
      UniqueKeysTail(es);
      KeysCount(tail);
      assert Keys(es) == {es[0].key} + Keys(tail) by {
        forall x | x in Keys(es) ensures x in {es[0].key} + Keys(tail) {
          var k :| 0 <= k < |es| && es[k].key == x;
          if k > 0 {
            assert tail[k - 1] == es[k];
          }
        }
        forall x | x in Keys(tail) ensures x in Keys(es) {
          var k :| 0 <= k < |tail| && tail[k].key == x;
          assert es[k + 1] == tail[k];
        }
      }
      assert es[0].key !in Keys(tail) by {
        forall k | 0 <= k < |tail| ensures tail[k].key != es[0].key {
          assert tail[k] == es[k + 1];
        }
      }
    }
  }

  /** An email is a key of the statistics exactly when some record carries it. */
  lemma KeyedIffPurchased(purchases: seq<Purchase>, e: string)
    ensures e in Keys(Aggregate(purchases)) <==> e in Emails(purchases)
  {
    var es := Aggregate(purchases);
    AggregateSpec(purchases, e);
    var rs := RecordsOf(purchases, e);
    if e in Emails(purchases) {
      var k :| 0 <= k < |purchases| && purchases[k].userEmail == e;
      assert purchases[k] in rs;
      var i :| 0 <= i < |es| && es[i] == Entry(e, Lookup(es, e).value);
      assert es[i].key == e;
    }
    if e in Keys(es) {
      var i :| 0 <= i < |es| && es[i].key == e;
      assert HasKey(es, e);
      assert rs[0] in rs;
      var k :| 0 <= k < |purchases| && purchases[k] == rs[0];
    }
  }

  /** The unique-customers figure is the number of rows of the attendance view over the same
      records: one row per distinct email. */
  lemma UniqueCustomersMatchesAttendance(purchases: seq<Purchase>)
    ensures UniqueCustomers(purchases) == |Aggregate(purchases)|
  {
    var es := Aggregate(purchases);
    AggregateSpec(purchases, "");
    KeysCount(es);
    forall e ensures e in Keys(es) <==> e in Emails(purchases) {
      KeyedIffPurchased(purchases, e);
    }
    assert Keys(es) == Emails(purchases);
  }
}
