/** Value wrappers, JavaScript string helpers, insertion-ordered objects and sums
    shared by the modules of the ticketing model. */
module Common {

  datatype Option<+T> = None | Some(value: T)

  /** A call that either produces a value or fails (a rejected promise, a thrown error). */
  datatype Result<+T, +E> = Ok(value: T) | Err(error: E)

  // ---------------------------------------------------------------------------
  // Characters and strings
  // ---------------------------------------------------------------------------

  /** The characters that JavaScript's `String.prototype.trim` removes and that the
      regular-expression class `\s` matches: white space and line terminators. */
  predicate IsWhiteSpace(c: char) {
    c == ' ' || c == '\t' || c == '\n' || c == '\r' || c == '\U{0B}' || c == '\U{0C}'
    || c == '\U{A0}' || c == '\U{1680}' || ('\U{2000}' <= c <= '\U{200A}')
    || c == '\U{2028}' || c == '\U{2029}' || c == '\U{202F}' || c == '\U{205F}'
    || c == '\U{3000}' || c == '\U{FEFF}'
  }

  /** The characters that the regular-expression wildcard `.` does not match. */
  predicate IsLineTerminator(c: char) {
    c == '\n' || c == '\r' || c == '\U{2028}' || c == '\U{2029}'
  }

  predicate IsLowerAscii(c: char) { 'a' <= c <= 'z' }
  predicate IsUpperAscii(c: char) { 'A' <= c <= 'Z' }
  predicate IsDigitAscii(c: char) { '0' <= c <= '9' }

  predicate AllWhiteSpace(s: string) {
    forall i :: 0 <= i < |s| ==> IsWhiteSpace(s[i])
  }

  /** JavaScript's `s.length`: UTF-16 code units, so a character outside the Basic
      Multilingual Plane counts twice. */
  function Utf16Length(s: string): (n: nat)
    ensures |s| <= n <= 2 * |s|
  {
    if s == [] then 0 else (if s[0] as int > 0xFFFF then 2 else 1) + Utf16Length(s[1..])
  }

  /** Drops leading white space. */
  function TrimStart(s: string): (r: string)
    ensures |r| <= |s|
  {
    if s != [] && IsWhiteSpace(s[0]) then TrimStart(s[1..]) else s
  }

  /** Drops trailing white space. */
  function TrimEnd(s: string): (r: string)
    ensures |r| <= |s|
  {
    if s != [] && IsWhiteSpace(s[|s| - 1]) then TrimEnd(s[..|s| - 1]) else s
  }

  /** JavaScript's `s.trim()`. */
  function Trim(s: string): (r: string)
    ensures |r| <= |s|
  {
    TrimEnd(TrimStart(s))
  }

  /** TrimStart keeps a suffix, drops only white space, and stops at a character that is not. */
  lemma {:induction false} TrimStartSpec(s: string)
    ensures var r := TrimStart(s);
            r == s[|s| - |r|..] && AllWhiteSpace(s[..|s| - |r|]) && (r == [] || !IsWhiteSpace(r[0]))
  {
    if s != [] && IsWhiteSpace(s[0]) {
      TrimStartSpec(s[1..]);
      var r := TrimStart(s);
      assert s[1..][..|s| - 1 - |r|] == s[1..|s| - |r|];
      var dropped, rest := s[..|s| - |r|], s[1..][..|s| - 1 - |r|];
      assert forall i :: 1 <= i < |dropped| ==> dropped[i] == rest[i - 1];
    }
  }

  /** TrimEnd keeps a prefix, drops only white space, and stops at a character that is not. */
  lemma {:induction false} TrimEndSpec(s: string)
    ensures var r := TrimEnd(s);
            r == s[..|r|] && AllWhiteSpace(s[|r|..]) && (r == [] || !IsWhiteSpace(r[|r| - 1]))
  {
    if s != [] && IsWhiteSpace(s[|s| - 1]) {
      TrimEndSpec(s[..|s| - 1]);
      var r := TrimEnd(s);
      assert forall i :: 0 <= i < |s| - 1 - |r| ==> s[|r|..][i] == s[..|s| - 1][|r|..][i];
    }
  }

  /** The trimmed string starts and ends with a character that is not white space. */
  lemma TrimEnds(s: string)
    ensures Trim(s) == [] || (!IsWhiteSpace(Trim(s)[0]) && !IsWhiteSpace(Trim(s)[|Trim(s)| - 1]))
  {
    TrimStartSpec(s);
    TrimEndSpec(TrimStart(s));
  }

  /** A string trims to the empty string exactly when it is made of white space only:
      this is what a `!s.trim()` test rejects. */
  lemma TrimEmptyIffBlank(s: string)
    ensures Trim(s) == [] <==> AllWhiteSpace(s)
  {
    var t := TrimStart(s);
    TrimStartSpec(s);
    TrimEndSpec(t);
    if Trim(s) == [] {
      assert AllWhiteSpace(t[0..]);
      assert s == s[..|s| - |t|] + t;
    } else {
      var k :| 0 <= k < |Trim(s)| && !IsWhiteSpace(Trim(s)[k]);
      assert Trim(s)[k] == s[|s| - |t| + k];
    }
  }

  /** JavaScript's `toLowerCase` on the ASCII letters. */
  function ToLowerChar(c: char): (r: char)
    ensures IsUpperAscii(c) ==> IsLowerAscii(r)
    ensures !IsUpperAscii(c) ==> r == c
  {
    if IsUpperAscii(c) then (c as int + 32) as char else c
  }

  function ToLower(s: string): (r: string)
    ensures |r| == |s|
    ensures forall i :: 0 <= i < |s| ==> r[i] == ToLowerChar(s[i])
  {
    seq(|s|, i requires 0 <= i < |s| => ToLowerChar(s[i]))
  }

  /** Lowering leaves no ASCII capital, and it changes a string exactly when the string has one. */
  lemma ToLowerFixedIffNoCapitals(s: string)
    ensures forall i :: 0 <= i < |s| ==> !IsUpperAscii(ToLower(s)[i])
    ensures ToLower(s) == s <==> forall i :: 0 <= i < |s| ==> !IsUpperAscii(s[i])
  {
    if ToLower(s) == s {
      forall i | 0 <= i < |s| ensures !IsUpperAscii(s[i]) {
        assert ToLower(s)[i] == s[i];
      }
    }
  }

  /** `sub` occurs in `s` starting at position `i`. */
  predicate OccursAt(s: string, sub: string, i: int) {
    0 <= i <= |s| - |sub| && s[i..i + |sub|] == sub
  }

  /** JavaScript's `s.includes(sub)`: `sub` occurs in `s` at some position. */
  predicate Includes(s: string, sub: string) {
    exists i | 0 <= i <= |s| - |sub| :: OccursAt(s, sub, i)
  }

  lemma IncludesEmpty(s: string)
    ensures Includes(s, "")
  {
    assert OccursAt(s, "", 0);
  }

  // ---------------------------------------------------------------------------
  // Insertion-ordered objects: a JavaScript `{[key: string]: V}` or `Map<string, V>`
  // ---------------------------------------------------------------------------

  datatype Entry<V> = Entry(key: string, value: V)

  predicate UniqueKeys<V>(es: seq<Entry<V>>) {
    forall i, j :: 0 <= i < j < |es| ==> es[i].key != es[j].key
  }

  predicate HasKey<V>(es: seq<Entry<V>>, k: string) {
    exists i :: 0 <= i < |es| && es[i].key == k
  }

  /** `obj[k]`, or None where `obj[k]` is undefined: the first entry with key `k`. */
  function Lookup<V>(es: seq<Entry<V>>, k: string): (r: Option<V>)
    ensures r.None? <==> !HasKey(es, k)
    ensures r.Some? ==> exists i :: 0 <= i < |es| && es[i] == Entry(k, r.value)
  {
    if es == [] then None
    else if es[0].key == k then Some(es[0].value)
    else (
      assert forall i :: 0 <= i < |es| - 1 ==> es[1..][i] == es[i + 1];
      Lookup(es[1..], k))
  }

  lemma UniqueKeysTail<V>(es: seq<Entry<V>>)
    requires UniqueKeys(es) && es != []
    ensures UniqueKeys(es[1..])
  {
    forall a, b | 0 <= a < b < |es| - 1 ensures es[1..][a].key != es[1..][b].key {
      assert es[1..][a] == es[a + 1] && es[1..][b] == es[b + 1];
    }
  }

  /** With unique keys, looking a key up finds the one entry that holds it. */
  lemma {:induction false} LookupAt<V>(es: seq<Entry<V>>, i: int)
    requires UniqueKeys(es) && 0 <= i < |es|
    ensures Lookup(es, es[i].key) == Some(es[i].value)
  {
    if i > 0 {
      UniqueKeysTail(es);
      assert es[1..][i - 1] == es[i];
      LookupAt(es[1..], i - 1);
    }
  }

  /** `{...obj, [k]: v}`: an existing key keeps its position, a new key goes last. */
  function Put<V>(es: seq<Entry<V>>, k: string, v: V): (r: seq<Entry<V>>)
    ensures HasKey(es, k) ==> |r| == |es|
    ensures !HasKey(es, k) ==> r == es + [Entry(k, v)]
    ensures forall i :: 0 <= i < |es| ==> r[i] == if es[i].key == k then Entry(k, v) else es[i]
  {
    if HasKey(es, k) then
      seq(|es|, i requires 0 <= i < |es| => if es[i].key == k then Entry(k, v) else es[i])
    else es + [Entry(k, v)]
  }

  /** Whatever the keys, `obj[k]` after `{...obj, [k]: v}` is `v`: every entry under k holds it. */
  lemma PutReadsBack<V>(es: seq<Entry<V>>, k: string, v: V)
    ensures Lookup(Put(es, k, v), k) == Some(v)
  {
    if !HasKey(es, k) {
      assert Put(es, k, v)[|es|] == Entry(k, v);
    }
  }

  /** Putting a key sets it and leaves every other key's value as it was. */
  lemma PutProperties<V>(es: seq<Entry<V>>, k: string, v: V)
    requires UniqueKeys(es)
    ensures UniqueKeys(Put(es, k, v))
    ensures Lookup(Put(es, k, v), k) == Some(v)
    ensures forall k' :: k' != k ==> Lookup(Put(es, k, v), k') == Lookup(es, k')
  {
    var r := Put(es, k, v);
    assert forall i :: 0 <= i < |r| ==> r[i].key == (if i < |es| then es[i].key else k);
    var ik :| 0 <= ik < |r| && r[ik].key == k;
    LookupAt(r, ik);
    forall k' | k' != k
      ensures Lookup(r, k') == Lookup(es, k')
    {
      if HasKey(es, k') {
        var i :| 0 <= i < |es| && es[i].key == k';
        LookupAt(es, i);
        LookupAt(r, i);
      } else {
        assert !HasKey(r, k');
      }
    }
  }

  /** `const {[k]: _, ...rest} = obj`: the entry for `k` is dropped, the others keep their order. */
  function Remove<V>(es: seq<Entry<V>>, k: string): (r: seq<Entry<V>>)
    ensures |r| <= |es|
    ensures !HasKey(r, k)
    ensures forall i :: 0 <= i < |r| ==> r[i] in es
    ensures forall e :: e in es && e.key != k ==> e in r
  {
    if es == [] then []
    else if es[0].key == k then Remove(es[1..], k)
    else [es[0]] + Remove(es[1..], k)
  }

  lemma {:induction false} RemoveUnique<V>(es: seq<Entry<V>>, k: string)
    requires UniqueKeys(es)
    ensures UniqueKeys(Remove(es, k))
  {
    if es != [] {
      UniqueKeysTail(es);
      RemoveUnique(es[1..], k);
      if es[0].key != k {
        var rest := Remove(es[1..], k);
        forall j | 0 <= j < |rest| ensures rest[j].key != es[0].key {
          assert rest[j] in es[1..];
        }
        assert Remove(es, k) == [es[0]] + rest;
      }
    }
  }

  /** Removing a key makes it undefined and leaves every other key's value as it was. */
  lemma RemoveLookup<V>(es: seq<Entry<V>>, k: string)
    requires UniqueKeys(es)
    ensures UniqueKeys(Remove(es, k))
    ensures Lookup(Remove(es, k), k) == None
    ensures forall k' :: k' != k ==> Lookup(Remove(es, k), k') == Lookup(es, k')
  {
    var r := Remove(es, k);
    RemoveUnique(es, k);
    forall k' | k' != k
      ensures Lookup(r, k') == Lookup(es, k')
    {
      if HasKey(es, k') {
        var i :| 0 <= i < |es| && es[i].key == k';
        assert es[i] in r;
        var j :| 0 <= j < |r| && r[j] == es[i];
        LookupAt(es, i);
        LookupAt(r, j);
      } else {
        forall j | 0 <= j < |r| ensures r[j].key != k' {
          assert r[j] in es;
        }
      }
    }
  }

  /** `obj[k] || 0` on a map of counts. */
  function ValueOrZero(es: seq<Entry<int>>, k: string): int {
    match Lookup(es, k)
    case Some(v) => v
    case None => 0
  }

  lemma PutCons<V>(es: seq<Entry<V>>, k: string, v: V)
    requires es != [] && es[0].key != k
    ensures Put(es, k, v) == [es[0]] + Put(es[1..], k, v)
  {
    assert HasKey(es, k) <==> HasKey(es[1..], k) by {
      if HasKey(es, k) {
        var i :| 0 <= i < |es| && es[i].key == k;
        assert es[1..][i - 1] == es[i];
      }
      if HasKey(es[1..], k) {
        var i :| 0 <= i < |es[1..]| && es[1..][i].key == k;
        assert es[i + 1] == es[1..][i];
      }
    }
  }

  lemma RemoveAbsent<V>(es: seq<Entry<V>>, k: string)
    requires !HasKey(es, k)
    ensures Remove(es, k) == es
  {
    if es != [] {
      RemoveAbsent(es[1..], k);
    }
  }

  /** The sum of a map's counts is its first count plus the sum of the rest. */
  lemma SumValuesCons(es: seq<Entry<int>>)
    requires es != []
    ensures SumInt(Values(es)) == es[0].value + SumInt(Values(es[1..]))
  {
    assert Values(es)[1..] == Values(es[1..]);
  }

  lemma ValueOrZeroCons(es: seq<Entry<int>>, k: string)
    requires es != [] && es[0].key != k
    ensures ValueOrZero(es, k) == ValueOrZero(es[1..], k)
  {
  }

  /** Setting a count changes the sum of the counts by the difference. */
  lemma {:induction false} SumAfterPut(es: seq<Entry<int>>, k: string, v: int)
    requires UniqueKeys(es)
    ensures SumInt(Values(Put(es, k, v))) == SumInt(Values(es)) - ValueOrZero(es, k) + v
  {
    var r := Put(es, k, v);
    if es == [] {
      assert r == [Entry(k, v)];
      SumValuesCons(r);
    } else if es[0].key == k {
      assert forall i :: 1 <= i < |es| ==> es[i].key != k;
      assert r == [Entry(k, v)] + es[1..];
      assert r[1..] == es[1..];
      SumValuesCons(r);
      SumValuesCons(es);
    } else {
      UniqueKeysTail(es);
      PutCons(es, k, v);
      assert r[1..] == Put(es[1..], k, v);
      SumAfterPut(es[1..], k, v);
      SumValuesCons(r);
      SumValuesCons(es);
      ValueOrZeroCons(es, k);
    }
  }

  /** Removing a key takes its count out of the sum. */
  lemma {:induction false} SumAfterRemove(es: seq<Entry<int>>, k: string)
    requires UniqueKeys(es)
    ensures SumInt(Values(Remove(es, k))) == SumInt(Values(es)) - ValueOrZero(es, k)
  {
    if es != [] {
      UniqueKeysTail(es);
      var tail := es[1..];
      SumValuesCons(es);
      if es[0].key == k {
        forall i | 0 <= i < |tail| ensures tail[i].key != k {
          assert tail[i] == es[i + 1];
        }
        RemoveAbsent(tail, k);
        assert Remove(es, k) == tail;
      } else {
        SumAfterRemove(tail, k);
        ValueOrZeroCons(es, k);
        var r := Remove(es, k);
        assert r == [es[0]] + Remove(tail, k);
        assert r[1..] == Remove(tail, k);
        SumValuesCons(r);
      }
    }
  }

  /** `Object.values(obj)`. */
  function Values<V>(es: seq<Entry<V>>): (r: seq<V>)
    ensures |r| == |es|
    ensures forall i :: 0 <= i < |es| ==> r[i] == es[i].value
  {
    seq(|es|, i requires 0 <= i < |es| => es[i].value)
  }

  /** With unique keys, `Object.values` lists a value exactly when some key reads it back. */
  lemma ValuesReadBack<V>(es: seq<Entry<V>>, v: V)
    requires UniqueKeys(es)
    ensures v in Values(es) <==> exists k :: Lookup(es, k) == Some(v)
  {
    if v in Values(es) {
      var i :| 0 <= i < |es| && Values(es)[i] == v;
      LookupAt(es, i);
    }
    if exists k :: Lookup(es, k) == Some(v) {
      var k :| Lookup(es, k) == Some(v);
      var i :| 0 <= i < |es| && es[i] == Entry(k, v);
      assert Values(es)[i] == v;
    }
  }

  // ---------------------------------------------------------------------------
  // Sums (the `reduce((sum, x) => sum + f(x), 0)` of the source)
  // ---------------------------------------------------------------------------

  function SumInt(s: seq<int>): int {
    if s == [] then 0 else s[0] + SumInt(s[1..])
  }

  function SumReal(s: seq<real>): real {
    if s == [] then 0.0 else s[0] + SumReal(s[1..])
  }

  lemma {:induction false} SumIntAppend(a: seq<int>, b: seq<int>)
    ensures SumInt(a + b) == SumInt(a) + SumInt(b)
  {
    if a != [] {
      assert (a + b)[1..] == a[1..] + b;
      SumIntAppend(a[1..], b);
    } else {
      assert a + b == b;
    }
  }

  lemma {:induction false} SumRealAppend(a: seq<real>, b: seq<real>)
    ensures SumReal(a + b) == SumReal(a) + SumReal(b)
  {
    if a != [] {
      assert (a + b)[1..] == a[1..] + b;
      SumRealAppend(a[1..], b);
    } else {
      assert a + b == b;
    }
  }

  lemma {:induction false} SumIntNonNegative(s: seq<int>)
    ensures (forall i :: 0 <= i < |s| ==> s[i] >= 0) ==> SumInt(s) >= 0
  {
    if s != [] {
      SumIntNonNegative(s[1..]);
    }
  }

  /** A sum of non-negative terms is zero only when every term is. */
  lemma {:induction false} SumIntZero(s: seq<int>)
    requires forall i :: 0 <= i < |s| ==> s[i] >= 0
    ensures SumInt(s) == 0 <==> forall i :: 0 <= i < |s| ==> s[i] == 0
  {
    if s != [] {
      SumIntNonNegative(s[1..]);
      SumIntZero(s[1..]);
      if forall i :: 0 <= i < |s| ==> s[i] == 0 {
        assert forall i :: 0 <= i < |s[1..]| ==> s[1..][i] == s[i + 1];
      }
    }
  }

  function Max(a: int, b: int): (r: int)
    ensures r >= a && r >= b && (r == a || r == b)
  {
    if a >= b then a else b
  }

  /** `array.find(x => key(x) === k)`: the first element whose key is `k`, if any. */
  function Find<T>(xs: seq<T>, key: T -> string, k: string): (r: Option<T>)
    ensures r.None? <==> forall i :: 0 <= i < |xs| ==> key(xs[i]) != k
    ensures r.Some? ==> r.value in xs && key(r.value) == k
    ensures r.Some? ==> exists i :: 0 <= i < |xs| && xs[i] == r.value
                                    && forall j :: 0 <= j < i ==> key(xs[j]) != k
  {
    if xs == [] then None
    else if key(xs[0]) == k then Some(xs[0])
    else
      var rest := Find(xs[1..], key, k);
      assert forall i :: 0 <= i < |xs| - 1 ==> xs[1..][i] == xs[i + 1];
      assert rest.Some? ==> exists i :: 0 <= i < |xs| && xs[i] == rest.value
                                         && forall j :: 0 <= j < i ==> key(xs[j]) != k by {
        if rest.Some? {
          var i :| 0 <= i < |xs[1..]| && xs[1..][i] == rest.value
                   && forall j :: 0 <= j < i ==> key(xs[1..][j]) != k;
          assert xs[i + 1] == rest.value;
          forall j | 0 <= j < i + 1 ensures key(xs[j]) != k {
            if j > 0 { assert xs[j] == xs[1..][j - 1]; }
          }
        }
      }
      rest
  }
}
