/** Input predicates (`validateInput`), the CSRF token format check, and the client-side
    sliding-window rate limiter. */
module Security {
  import opened Common

  // ---------------------------------------------------------------------------
  // validateInput.email: /^[^\s@]+@[^\s@]+\.[^\s@]+$/
  // ---------------------------------------------------------------------------

  /** A character of the class `[^\s@]`. */
  predicate EmailChar(c: char) {
    !IsWhiteSpace(c) && c != '@'
  }

  /** `[^\s@]+`. */
  predicate EmailRun(s: string) {
    |s| > 0 && forall k :: 0 <= k < |s| ==> EmailChar(s[k])
  }

  /** The pattern read literally: the string splits as run, '@', run, '.', run. */
  ghost predicate EmailPattern(s: string) {
    exists i, j :: 0 < i && i + 1 < j && j + 1 < |s| && s[i] == '@' && s[j] == '.'
                   && EmailRun(s[..i]) && EmailRun(s[i + 1..j]) && EmailRun(s[j + 1..])
  }

  /** The email check: no white space, exactly one '@' and not at the start, and a '.'
      strictly inside the part after it. */
  predicate ValidEmail(email: string)
    ensures ValidEmail(email) ==> 5 <= |email| && '@' in email
  {
    (forall k | 0 <= k < |email| :: !IsWhiteSpace(email[k]))
    && exists i | 0 < i < |email| ::
         email[i] == '@' && (forall k | 0 <= k < |email| && k != i :: email[k] != '@')
         && exists j | i + 1 < j < |email| - 1 :: email[j] == '.'
  }

  lemma ValidEmailIsPattern(email: string)
    requires ValidEmail(email)
    ensures EmailPattern(email)
  {
    var i :| 0 < i < |email| && email[i] == '@'
             && (forall k | 0 <= k < |email| && k != i :: email[k] != '@')
             && exists j | i + 1 < j < |email| - 1 :: email[j] == '.';
    var j :| i + 1 < j < |email| - 1 && email[j] == '.';
    var local, host, top := email[..i], email[i + 1..j], email[j + 1..];
    assert forall k :: 0 <= k < |local| ==> local[k] == email[k];
    assert forall k :: 0 <= k < |host| ==> host[k] == email[i + 1 + k];
    assert forall k :: 0 <= k < |top| ==> top[k] == email[j + 1 + k];
    assert EmailRun(local) && EmailRun(host) && EmailRun(top);
  }

  /** A character inside a run taken from `s` is a character of the class. */
  lemma RunCharAt(s: string, lo: int, hi: int, k: int)
    requires 0 <= lo <= k < hi <= |s| && EmailRun(s[lo..hi])
    ensures EmailChar(s[k])
  {
    assert s[lo..hi][k - lo] == s[k];
  }

  /** Outside the '@' the three runs leave only characters of the class. */
  lemma PatternChars(email: string, i: int, j: int)
    requires 0 < i && i + 1 < j && j + 1 < |email| && email[i] == '@' && email[j] == '.'
    requires EmailRun(email[..i]) && EmailRun(email[i + 1..j]) && EmailRun(email[j + 1..])
    ensures forall k | 0 <= k < |email| && k != i :: EmailChar(email[k])
  {
    assert email[..i] == email[0..i] && email[j + 1..] == email[j + 1..|email|];
    forall k | 0 <= k < |email| && k != i
      ensures EmailChar(email[k])
    {
      if k < i {
        RunCharAt(email, 0, i, k);
      } else if k < j {
        RunCharAt(email, i + 1, j, k);
      } else if k > j {
        RunCharAt(email, j + 1, |email|, k);
      }
    }
  }

  lemma PatternIsValidEmail(email: string)
    requires EmailPattern(email)
    ensures ValidEmail(email)
  {
    var i, j :| 0 < i && i + 1 < j && j + 1 < |email| && email[i] == '@' && email[j] == '.'
                && EmailRun(email[..i]) && EmailRun(email[i + 1..j]) && EmailRun(email[j + 1..]);
    PatternChars(email, i, j);
    assert forall k | 0 <= k < |email| :: !IsWhiteSpace(email[k]) by {
      assert !IsWhiteSpace(email[i]) by {
        assert email[i] == '@';
      }
    }
  }

  /** The check accepts exactly the strings the regular expression matches. */
  lemma ValidEmailMatchesPattern(email: string)
    ensures ValidEmail(email) <==> EmailPattern(email)
  {
    if ValidEmail(email) {
      ValidEmailIsPattern(email);
    }
    if EmailPattern(email) {
      PatternIsValidEmail(email);
    }
  }

  // ---------------------------------------------------------------------------
  // validateInput.password
  // ---------------------------------------------------------------------------

  datatype PasswordVerdict = PasswordVerdict(isValid: bool, message: string)

  const PasswordTooShort := "Password must be at least 8 characters long"
  const PasswordTooSimple := "Password must contain uppercase, lowercase, and numbers"

  datatype CharClass = Lower | Upper | Digit

  predicate InClass(c: char, cls: CharClass) {
    match cls
    case Lower => IsLowerAscii(c)
    case Upper => IsUpperAscii(c)
    case Digit => IsDigitAscii(c)
  }

  /** The look-ahead `(?=.*[class])` at position p: a character of the class follows, with
      no line terminator in between, since `.` does not match one. */
  predicate LookaheadAt(s: string, p: int, cls: CharClass) {
    exists q | 0 <= p <= q < |s| :: InClass(s[q], cls) && forall r | p <= r < q :: !IsLineTerminator(s[r])
  }

  /** `/(?=.*[a-z])(?=.*[A-Z])(?=.*\d)/.test(s)`: the three look-aheads hold together at some
      position. */
  predicate CompositionPattern(s: string) {
    exists p | 0 <= p <= |s| :: LookaheadAt(s, p, Lower) && LookaheadAt(s, p, Upper) && LookaheadAt(s, p, Digit)
  }

  predicate Contains(s: string, cls: CharClass) {
    exists q | 0 <= q < |s| :: InClass(s[q], cls)
  }

  /** validateInput.password: the length test comes first, then the composition test. */
  function ValidatePassword(password: string): (v: PasswordVerdict)
    ensures v.isValid <==> Utf16Length(password) >= 8 && CompositionPattern(password)
    ensures v.isValid <==> v.message == ""
    ensures !v.isValid ==> v.message == (if Utf16Length(password) < 8 then PasswordTooShort else PasswordTooSimple)
  {
    if Utf16Length(password) < 8 then PasswordVerdict(false, PasswordTooShort)
    else if !CompositionPattern(password) then PasswordVerdict(false, PasswordTooSimple)
    else PasswordVerdict(true, "")
  }

  /** On a single-line password the composition test asks for a lowercase letter, an
      uppercase letter and a digit anywhere. */
  lemma CompositionOnOneLine(s: string)
    requires forall r :: 0 <= r < |s| ==> !IsLineTerminator(s[r])
    ensures CompositionPattern(s) <==> Contains(s, Lower) && Contains(s, Upper) && Contains(s, Digit)
  {
    if Contains(s, Lower) && Contains(s, Upper) && Contains(s, Digit) {
      assert LookaheadAt(s, 0, Lower) && LookaheadAt(s, 0, Upper) && LookaheadAt(s, 0, Digit);
    }
  }

  /** Across a line break the classes do not combine: "aB" and "1" on separate lines fail. */
  lemma CompositionStopsAtLineBreak()
    ensures !CompositionPattern("aB\n1")
  {
    var s := "aB\n1";
    forall p | 0 <= p <= |s| ensures !(LookaheadAt(s, p, Lower) && LookaheadAt(s, p, Digit)) {
      if p <= 2 {
        assert IsLineTerminator(s[2]);
        assert !LookaheadAt(s, p, Digit);
      } else {
        assert !InClass(s[3], Lower);
        assert !LookaheadAt(s, p, Lower);
      }
    }
  }

  // ---------------------------------------------------------------------------
  // validateInput.eventTitle, eventDate, price, quantity
  // ---------------------------------------------------------------------------

  /** The trimmed title is 3 to 100 UTF-16 code units long. */
  predicate ValidEventTitle(title: string)
    ensures ValidEventTitle(title) ==> 2 <= |Trim(title)| <= 100
  {
    3 <= Utf16Length(Trim(title)) <= 100
  }

  /** A title of white space only is rejected. */
  lemma BlankTitleRejected(title: string)
    requires AllWhiteSpace(title)
    ensures !ValidEventTitle(title)
  {
    TrimEmptyIffBlank(title);
  }

  /** `new Date(date) > new Date()`: `parsed` is the instant the string denotes (None for an
      Invalid Date, whose NaN compares false) and `now` the clock. */
  predicate ValidEventDate(parsed: Option<int>, now: int) {
    parsed.Some? && parsed.value > now
  }

  /** The comparison is strict: an event at the current instant is already in the past, and
      a date that does not parse never passes. */
  lemma EventDateStrictlyAfterNow(now: int)
    ensures !ValidEventDate(Some(now), now) && ValidEventDate(Some(now + 1), now)
    ensures !ValidEventDate(None, now)
  {
  }

  predicate ValidPrice(price: real) {
    0.0 <= price <= 10000.0
  }

  /** Both ends of the price range are accepted; anything outside is not. */
  lemma PriceBoundsInclusive()
    ensures ValidPrice(0.0) && ValidPrice(10000.0)
    ensures !ValidPrice(-0.01) && !ValidPrice(10000.01)
  {
  }

  /** `Number.isInteger(q) && q > 0 && q <= 10000` on a finite number. */
  predicate ValidQuantity(quantity: real)
    ensures ValidQuantity(quantity) ==> 1.0 <= quantity
  {
    quantity == quantity.Floor as real && 0.0 < quantity <= 10000.0
  }

  /** For whole numbers the quantity check is the range 1..10000. */
  lemma ValidQuantityOfInteger(n: int)
    ensures ValidQuantity(n as real) <==> 1 <= n <= 10000
  {
  }

  /** Fractions are rejected even inside the range. */
  lemma FractionalQuantityRejected(quantity: real)
    requires quantity.Floor as real < quantity
    ensures !ValidQuantity(quantity)
  {
  }

  // ---------------------------------------------------------------------------
  // securityUtils.isValidCSRFToken: /^[a-z0-9]{20,}$/
  // ---------------------------------------------------------------------------

  predicate IsBase36Digit(c: char) {
    IsLowerAscii(c) || IsDigitAscii(c)
  }

  /** At least 20 characters, each a lowercase ASCII letter or a digit. */
  predicate IsValidCSRFToken(token: string)
    ensures IsValidCSRFToken(token) ==> ToLower(token) == token
  {
    |token| >= 20 && forall k :: 0 <= k < |token| ==> IsBase36Digit(token[k])
  }

  /** A token glued from two base-36 numerals (the random part and the clock part) is valid
      exactly when it is at least 20 characters long. */
  lemma Base36TokenValidIffLongEnough(random: string, clock: string)
    requires forall k :: 0 <= k < |random| ==> IsBase36Digit(random[k])
    requires forall k :: 0 <= k < |clock| ==> IsBase36Digit(clock[k])
    ensures IsValidCSRFToken(random + clock) <==> |random| + |clock| >= 20
  {
    var t := random + clock;
    forall k | 0 <= k < |t| ensures IsBase36Digit(t[k]) {
      if k >= |random| {
        assert t[k] == clock[k - |random|];
      }
    }
  }

  // ---------------------------------------------------------------------------
  // RateLimiter
  // ---------------------------------------------------------------------------

  /** The timestamps of `history` that lie within the window: `now - time < windowMs`. */
  function InWindow(history: seq<int>, now: int, windowMs: int): (r: seq<int>)
    ensures |r| <= |history|
    ensures forall k :: 0 <= k < |r| ==> now - r[k] < windowMs && r[k] in history
    ensures forall t :: t in history && now - t < windowMs ==> t in r
  {
    if history == [] then []
    else (if now - history[0] < windowMs then [history[0]] else []) + InWindow(history[1..], now, windowMs)
  }

  /** `this.attempts.get(key) || []` (an empty array is truthy, so it is kept). */
  function History(attempts: seq<Entry<seq<int>>>, key: string): seq<int> {
    match Lookup(attempts, key)
    case None => []
    case Some(h) => h
  }

  /** One `isAllowed` call on the map of histories: the verdict and the map afterwards. */
  function Attempt(attempts: seq<Entry<seq<int>>>, key: string, maxAttempts: int, windowMs: int, now: int)
    : (r: (bool, seq<Entry<seq<int>>>))
    ensures var recent := InWindow(History(attempts, key), now, windowMs);
            r.0 <==> |recent| < maxAttempts
    ensures !r.0 ==> r.1 == attempts
    ensures r.0 ==> r.1 == Put(attempts, key, InWindow(History(attempts, key), now, windowMs) + [now])
  {
    var recent := InWindow(History(attempts, key), now, windowMs);
    if |recent| >= maxAttempts then (false, attempts)
    else (true, Put(attempts, key, recent + [now]))
  }

  /** An allowed call stores the in-window attempts plus `now`, which is at most
      `maxAttempts` entries, and leaves every other key's history as it was. */
  lemma AllowedKeepsHistoryBounded(attempts: seq<Entry<seq<int>>>, key: string, maxAttempts: int,
                                   windowMs: int, now: int)
    requires UniqueKeys(attempts)
    requires Attempt(attempts, key, maxAttempts, windowMs, now).0
    ensures var after := Attempt(attempts, key, maxAttempts, windowMs, now).1;
            UniqueKeys(after) && 1 <= |History(after, key)| <= maxAttempts
            && History(after, key)[|History(after, key)| - 1] == now
            && forall other :: other != key ==> History(after, other) == History(attempts, other)
  {
    PutProperties(attempts, key, InWindow(History(attempts, key), now, windowMs) + [now]);
  }

  /** After `reset(key)` the key has no history, so the next call with a positive limit is
      allowed, whatever the window. */
  lemma ResetThenAllowed(attempts: seq<Entry<seq<int>>>, key: string, maxAttempts: int,
                         windowMs: int, now: int)
    requires maxAttempts >= 1
    ensures History(Remove(attempts, key), key) == []
    ensures Attempt(Remove(attempts, key), key, maxAttempts, windowMs, now).0
  {
  }

  /** A history that lies wholly in the window is kept as it is. */
  lemma {:induction false} InWindowKeepsAll(history: seq<int>, now: int, windowMs: int)
    requires forall k :: 0 <= k < |history| ==> now - history[k] < windowMs
    ensures InWindow(history, now, windowMs) == history
  {
    if history != [] {
      InWindowKeepsAll(history[1..], now, windowMs);
    }
  }

  /** The limit holds: once an allowed call has filled the window to `maxAttempts`, another
      call at the same instant is refused. */
  lemma FullWindowRefusesNextCall(attempts: seq<Entry<seq<int>>>, key: string, maxAttempts: int,
                                  windowMs: int, now: int)
    requires UniqueKeys(attempts) && windowMs > 0
    requires Attempt(attempts, key, maxAttempts, windowMs, now).0
    requires |InWindow(History(attempts, key), now, windowMs)| + 1 == maxAttempts
    ensures !Attempt(Attempt(attempts, key, maxAttempts, windowMs, now).1, key, maxAttempts, windowMs, now).0
  {
    var kept := InWindow(History(attempts, key), now, windowMs) + [now];
    PutProperties(attempts, key, kept);
    InWindowKeepsAll(kept, now, windowMs);
  }

  /** The client-side limiter: a map from key to the times of its recent attempts. */
  class RateLimiter {
    var attempts: seq<Entry<seq<int>>>

    ghost predicate Valid()
      reads this
    {
      UniqueKeys(attempts)
    }

    constructor ()
      ensures Valid() && attempts == []
    {
      attempts := [];
    }

    /** isAllowed(key, maxAttempts, windowMs) at clock reading `now`. */
    method IsAllowed(key: string, maxAttempts: int, windowMs: int, now: int) returns (allowed: bool)
      requires Valid()
      modifies this
      ensures Valid()
      ensures (allowed, attempts) == Attempt(old(attempts), key, maxAttempts, windowMs, now)
    {
      var validAttempts := InWindow(History(attempts, key), now, windowMs);
      if |validAttempts| >= maxAttempts {
        return false;
      }
      validAttempts := validAttempts + [now];
      PutProperties(attempts, key, validAttempts);
      attempts := Put(attempts, key, validAttempts);
      return true;
    }

    /** reset(key): the key's history is deleted and no other key changes. */
    method Reset(key: string)
      requires Valid()
      modifies this
      ensures Valid()
      ensures attempts == Remove(old(attempts), key)
      ensures History(attempts, key) == []
      ensures forall other :: other != key ==> History(attempts, other) == History(old(attempts), other)
    {
      RemoveLookup(attempts, key);
      attempts := Remove(attempts, key);
    }
  }
}
