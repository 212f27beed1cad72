/**
 * App logs kept under formatted time stamps, and the two ways of reading those after a given time
 * (pkg/app/log_store.go).
 */
module LogStore {
  import opened Base

  type Bytes = seq<Byte>

  /** bytes.Compare: the order of keys in a bucket. */
  predicate Less(a: Bytes, b: Bytes) {
    b != [] && (a == [] || a[0] < b[0] || (a[0] == b[0] && Less(a[1..], b[1..])))
  }

  lemma {:induction false} LessTotal(a: Bytes, b: Bytes)
    ensures Less(a, b) || a == b || Less(b, a)
    ensures !(Less(a, b) && Less(b, a)) && !Less(a, a)
  {
    if a != [] && b != [] {
      LessTotal(a[1..], b[1..]);
      assert a == [a[0]] + a[1..] && b == [b[0]] + b[1..];
    }
    if a != [] {
      LessTotal(a[1..], a[1..]);
    }
  }

  lemma {:induction false} LessTransitive(a: Bytes, b: Bytes, c: Bytes)
    requires Less(a, b) && Less(b, c)
    ensures Less(a, c)
  {
    if a != [] && a[0] == b[0] == c[0] {
      LessTransitive(a[1..], b[1..], c[1..]);
    }
  }

  lemma {:induction false} LessPrefix(p: Bytes, a: Bytes, b: Bytes)
    ensures Less(p + a, p + b) <==> Less(a, b)
  {
    if p == [] {
      assert p + a == a && p + b == b;
    } else {
      assert (p + a)[1..] == p[1..] + a && (p + b)[1..] == p[1..] + b;
      LessPrefix(p[1..], a, b);
    }
  }

  datatype Log = Log(key: Bytes, text: Bytes)

  /** A bucket: its entries in key order, each key once. */
  predicate Sorted(es: seq<Log>) {
    forall i, j :: 0 <= i < j < |es| ==> Less(es[i].key, es[j].key)
  }

  function Get(es: seq<Log>, key: Bytes): Option<Bytes> {
    if es == [] then None else if es[0].key == key then Some(es[0].text) else Get(es[1..], key)
  }

  function Put(es: seq<Log>, e: Log): seq<Log> {
    if es == [] || Less(e.key, es[0].key) then [e] + es
    else if es[0].key == e.key then [e] + es[1..]
    else [es[0]] + Put(es[1..], e)
  }

  /** The texts of the entries with a key strictly greater than the given one, in key order. */
  function Later(es: seq<Log>, key: Bytes): seq<Bytes> {
    if es == [] then []
    else (if Less(key, es[0].key) then [es[0].text] else []) + Later(es[1..], key)
  }

  ghost predicate AllAbove(es: seq<Log>, key: Bytes) {
    forall e :: e in es ==> Less(key, e.key)
  }

  /** A bucket stays sorted, and a put changes what is found under its own key only. */
  lemma {:induction false} PutLaws(es: seq<Log>, e: Log, key: Bytes)
    requires Sorted(es)
    ensures Sorted(Put(es, e))
    ensures Get(Put(es, e), key) == if key == e.key then Some(e.text) else Get(es, key)
    ensures forall f :: f in Put(es, e) <==> f == e || (f in es && f.key != e.key)
  {
    if es == [] {
    } else {
      var first, rest := es[0], es[1..];
      assert es == [first] + rest;
      LessTotal(e.key, first.key);
      forall f | f in rest ensures Less(first.key, f.key) && f.key != first.key {
        LessTotal(first.key, f.key);
      }
      if Less(e.key, first.key) {
        forall f | f in es ensures Less(e.key, f.key) && f.key != e.key {
          if f != first {
            LessTransitive(e.key, first.key, f.key);
          }
          LessTotal(e.key, f.key);
        }
        assert Put(es, e)[1..] == es;
      } else if first.key == e.key {
        assert Put(es, e)[1..] == rest;
      } else {
        PutLaws(rest, e, key);
        assert Put(es, e)[1..] == Put(rest, e);
      }
    }
  }

  lemma {:induction false} LaterAll(es: seq<Log>, key: Bytes, text: Bytes)
    ensures text in Later(es, key) <==> exists e :: e in es && e.text == text && Less(key, e.key)
  {
    if es != [] {
      LaterAll(es[1..], key, text);
      assert es == [es[0]] + es[1..];
    }
  }

  lemma {:induction false} LaterAppend(a: seq<Log>, b: seq<Log>, key: Bytes)
    ensures Later(a + b, key) == Later(a, key) + Later(b, key)
  {
    hide Less;
    if a == [] {
      assert a + b == b;
    } else {
      assert (a + b)[1..] == a[1..] + b;
      LaterAppend(a[1..], b, key);
    }
  }

  class Cursor {
    const es: seq<Log>
    var pos: int

    ghost predicate Valid()
      reads this
    {
      -1 <= pos
    }

    constructor (es: seq<Log>)
      ensures Valid() && this.es == es
    {
      this.es := es;
      pos := -1;
    }

    method At() returns (e: Option<Log>)
      requires Valid() && 0 <= pos
      ensures e == if pos < |es| then Some(es[pos]) else None
    {
      return if pos < |es| then Some(es[pos]) else None;
    }

    method First() returns (e: Option<Log>)
      modifies this
      ensures Valid() && pos == 0
      ensures e == if 0 < |es| then Some(es[0]) else None
    {
      pos := 0;
      e := At();
    }

    method Next() returns (e: Option<Log>)
      requires Valid()
      modifies this
      ensures Valid() && pos == old(pos) + 1
      ensures e == if pos < |es| then Some(es[pos]) else None
    {
      pos := pos + 1;
      e := At();
    }

    /** Moves to the first key that is not less than the one sought. */
    method Seek(key: Bytes)
      modifies this
      ensures Valid() && 0 <= pos <= |es|
      ensures forall i :: 0 <= i < pos ==> Less(es[i].key, key)
      ensures pos < |es| ==> !Less(es[pos].key, key)
    {
      pos := 0;
      while pos < |es| && Less(es[pos].key, key)
        invariant 0 <= pos <= |es|
        invariant forall i :: 0 <= i < pos ==> Less(es[i].key, key)
      {
        pos := pos + 1;
      }
    }
  }

  function Texts(es: seq<Log>): seq<Bytes> {
    if es == [] then [] else Texts(es[..|es| - 1]) + [es[|es| - 1].text]
  }

  method IterateFromKey(c: Cursor) returns (logs: seq<Bytes>)
    requires c.Valid() && c.pos < |c.es|
    modifies c
    ensures logs == Texts(c.es[old(c.pos) + 1..])
  {
    ghost var start := c.pos + 1;
    logs := [];
    var e := c.Next();
    while e.Some?
      invariant c.Valid() && start <= c.pos <= |c.es|
      invariant e == if c.pos < |c.es| then Some(c.es[c.pos]) else None
      invariant logs == Texts(c.es[start..c.pos])
      decreases |c.es| - c.pos
    {
      assert c.es[start..c.pos + 1] == c.es[start..c.pos] + [c.es[c.pos]];
      logs := logs + [e.value.text];
      e := c.Next();
    }
    assert c.es[start..c.pos] == c.es[start..];
  }

  method IterateFromBeginning(c: Cursor, key: Bytes) returns (logs: seq<Bytes>)
    requires Get(c.es, key) == None
    modifies c
    ensures logs == Later(c.es, key)
  {
    logs := [];
    var e := c.First();
    while e.Some?
      invariant c.Valid() && 0 <= c.pos <= |c.es|
      invariant e == if c.pos < |c.es| then Some(c.es[c.pos]) else None
      invariant logs == Later(c.es[..c.pos], key)
      decreases |c.es| - c.pos
    {
      var i := c.pos;
      ghost var before := c.es[..i];
      assert c.es[..i + 1] == before + [c.es[i]];
      LaterAppend(before, [c.es[i]], key);
      Absent(c.es, key, i);
      LessTotal(c.es[i].key, key);
      e := c.Next();
      if Less(c.es[i].key, key) {
        continue;
      }
      logs := logs + [c.es[i].text];
    }
    assert c.es[..c.pos] == c.es;
  }

  lemma {:induction false} Absent(es: seq<Log>, key: Bytes, i: nat)
    requires i < |es|
    ensures Get(es, key) == None ==> es[i].key != key
  {
    if i > 0 && es[0].key != key {
      Absent(es[1..], key, i - 1);
    }
  }

  lemma {:induction false} Present(es: seq<Log>, key: Bytes)
    requires Get(es, key).Some?
    ensures exists i :: 0 <= i < |es| && es[i].key == key
  {
    if es[0].key != key {
      Present(es[1..], key);
      var i :| 0 <= i < |es| - 1 && es[1..][i].key == key;
      assert es[i + 1].key == key;
    }
  }

  /** Behind a key of a sorted bucket come exactly the entries that are later than it. */
  lemma {:induction false} LaterIsSuffix(es: seq<Log>, i: nat)
    requires Sorted(es) && i < |es|
    ensures Later(es, es[i].key) == Texts(es[i + 1..])
  {
    var key := es[i].key;
    assert es == es[..i + 1] + es[i + 1..];
    LaterAppend(es[..i + 1], es[i + 1..], key);
    forall e | e in es[..i + 1] ensures !Less(key, e.key) {
      var j :| 0 <= j <= i && es[j] == e;
      LessTotal(e.key, key);
    }
    LaterNone(es[..i + 1], key);
    LaterEvery(es[i + 1..], key);
  }

  lemma {:induction false} LaterNone(es: seq<Log>, key: Bytes)
    requires forall e :: e in es ==> !Less(key, e.key)
    ensures Later(es, key) == []
  {
    if es != [] {
      LaterNone(es[1..], key);
    }
  }

  lemma {:induction false} LaterEvery(es: seq<Log>, key: Bytes)
    requires AllAbove(es, key)
    ensures Later(es, key) == Texts(es)
  {
    if es != [] {
      var n := |es| - 1;
      LaterEvery(es[..n], key);
      LaterAppend(es[..n], [es[n]], key);
      assert es == es[..n] + [es[n]];
      assert Later([es[n]], key) == [es[n].text];
    }
  }

  class BoltAppLogs {
    var bucket: seq<Log>

    ghost predicate Valid()
      reads this
    {
      Sorted(bucket)
    }

    constructor ()
      ensures Valid() && bucket == []
    {
      bucket := [];
    }

    method Store(t: Time, s: Bytes)
      requires Valid()
      modifies this
      ensures Valid() && bucket == Put(old(bucket), Log(t.Key(), s))
    {
      PutLaws(bucket, Log(t.Key(), s), []);
      bucket := Put(bucket, Log(t.Key(), s));
    }

    /** A line written as it is: its key is the 35 bytes after the first, whatever they are. */
    method Write(p: Bytes) returns (n: Result<nat>)
      requires Valid()
      modifies this
      ensures Valid()
      ensures n == if |p| < 37 then Err("short buffer") else Ok(|p|)
      ensures bucket == if |p| < 37 then old(bucket) else Put(old(bucket), Log(p[1..36], p))
    {
      if |p| < 37 {
        return Err("short buffer");
      }
      PutLaws(bucket, Log(p[1..36], p), []);
      bucket := Put(bucket, Log(p[1..36], p));
      return Ok(|p|);
    }

    /** Whether the key is there and sought, or absent and scanned for, the same entries come back. */
    method LogsSince(t: Time) returns (logs: seq<Bytes>)
      requires Valid()
      ensures logs == Later(bucket, t.Key())
    {
      var key := t.Key();
      var c := new Cursor(bucket);
      var v := Get(bucket, key);
      if v.None? {
        logs := IterateFromBeginning(c, key);
        return;
      }
      c.Seek(key);
      Sought(bucket, key, c.pos);
      LaterIsSuffix(bucket, c.pos);
      logs := IterateFromKey(c);
    }
  }

  lemma Sought(es: seq<Log>, key: Bytes, pos: nat)
    requires Sorted(es) && Get(es, key).Some? && pos <= |es|
    requires forall i :: 0 <= i < pos ==> Less(es[i].key, key)
    requires pos < |es| ==> !Less(es[pos].key, key)
    ensures pos < |es| && es[pos].key == key
  {
    Present(es, key);
    var i :| 0 <= i < |es| && es[i].key == key;
    LessTotal(key, key);
    assert pos <= i;
  }

  // The keys: RFC 3339 with nanoseconds, trailing zeros of the fraction cut off.

  const DOT := 0x2E
  const ZERO := 0x30
  const ZULU := 0x5A

  function Pow10(k: nat): (p: nat)
    ensures p > 0
  {
    if k == 0 then 1 else 10 * Pow10(k - 1)
  }

  /** The first of `w` digits, and the number the other ones make. */
  function Lead(n: nat, w: nat): (d: Byte)
    requires 0 < w && n < Pow10(w)
    ensures d < 10
  {
    DivBound(n, Pow10(w - 1));
    n / Pow10(w - 1)
  }

  function Rest(n: nat, w: nat): (r: nat)
    requires 0 < w && n < Pow10(w)
    ensures r < Pow10(w - 1) && r <= n
  {
    DivBound(n, Pow10(w - 1));
    n % Pow10(w - 1)
  }

  lemma DivBound(n: nat, p: nat)
    requires 0 < p && n < 10 * p
    ensures 0 <= n / p < 10 && 0 <= n % p < p && n == p * (n / p) + n % p && n % p <= n
  {
  }

  lemma {:induction false} MulStep(p: nat, x: nat, y: nat)
    requires x < y
    ensures p * x + p <= p * y
  {
    assert p * y == p * (y - 1) + p;
    if x < y - 1 {
      MulStep(p, x, y - 1);
    }
  }

  lemma LeadOrder(a: nat, b: nat, w: nat)
    requires 0 < w && a <= b < Pow10(w)
    ensures Lead(a, w) <= Lead(b, w)
    ensures Lead(a, w) == Lead(b, w) ==> b - a == Rest(b, w) - Rest(a, w)
    ensures Lead(a, w) < Lead(b, w) ==> a - Rest(a, w) + Pow10(w - 1) <= b
    ensures a - Rest(a, w) + Pow10(w - 1) <= Pow10(w)
  {
    var p := Pow10(w - 1);
    LeadSplit(a, w);
    LeadSplit(b, w);
    var x, y := Lead(a, w), Lead(b, w);
    hide Lead, Rest, Pow10;
    if y < x {
      MulStep(p, y, x);
    }
    if x < y {
      MulStep(p, x, y);
    }
    MulStep(p, x, 10);
    PowStep(w);
  }

  lemma LeadSplit(n: nat, w: nat)
    requires 0 < w && n < Pow10(w)
    ensures n == Pow10(w - 1) * Lead(n, w) + Rest(n, w)
  {
    DivBound(n, Pow10(w - 1));
  }

  lemma PowStep(w: nat)
    ensures Pow10(0) == 1 && (0 < w ==> Pow10(w) == 10 * Pow10(w - 1))
  {
  }

  /** The first `w` digits after the point of a fraction of `n` units of 10^-w. */
  function Digits(n: nat, w: nat): (d: Bytes)
    requires n < Pow10(w)
    ensures |d| == w
  {
    if w == 0 then [] else [ZERO + Lead(n, w)] + Digits(Rest(n, w), w - 1)
  }

  /** The same without the zeros at its end. */
  function Trimmed(n: nat, w: nat): (d: Bytes)
    requires n < Pow10(w)
    ensures |d| <= w
    decreases w
  {
    if n == 0 then [] else [ZERO + Lead(n, w)] + Trimmed(Rest(n, w), w - 1)
  }

  function Zeros(k: nat): Bytes {
    if k == 0 then [] else [ZERO] + Zeros(k - 1)
  }

  lemma {:induction false} ZeroDigits(w: nat)
    ensures Digits(0, w) == Zeros(w)
  {
    if w > 0 {
      ZeroDigits(w - 1);
      DivBound(0, Pow10(w - 1));
      assert Lead(0, w) == 0 && Rest(0, w) == 0;
    }
  }

  /** Trimmed drops exactly the zeros at the end. */
  lemma {:induction false} TrimmedIsTrimmed(n: nat, w: nat)
    requires n < Pow10(w)
    ensures Trimmed(n, w) + Zeros(w - |Trimmed(n, w)|) == Digits(n, w)
    ensures n != 0 ==> Trimmed(n, w) != [] && Trimmed(n, w)[|Trimmed(n, w)| - 1] != ZERO
    decreases w
  {
    hide Lead, Rest, Pow10;
    if n == 0 {
      assert Trimmed(n, w) == [];
      ZeroDigits(w);
    } else {
      PowStep(w);
      TrimmedIsTrimmed(Rest(n, w), w - 1);
      if Rest(n, w) == 0 {
        LeadZero(n, w);
      }
    }
  }

  lemma LeadZero(n: nat, w: nat)
    requires 0 < w && 0 < n < Pow10(w) && Rest(n, w) == 0
    ensures Lead(n, w) != 0
  {
    LeadSplit(n, w);
    hide Lead, Rest, Pow10;
  }

  /** The fraction of a second as it is written: nothing at all for a whole second. */
  function Fraction(n: nat, w: nat): Bytes
    requires n < Pow10(w)
  {
    if n == 0 then [] else [DOT] + Trimmed(n, w)
  }

  lemma NinePowers()
    ensures Pow10(9) == 1_000_000_000
  {
    assert Pow10(3) == 1000;
    assert Pow10(6) == 1000 * Pow10(3);
    assert Pow10(9) == 1000 * Pow10(6);
  }

  type Nanos = n: nat | n < 1_000_000_000

  /** An instant as it is written: the 19 bytes down to the second, the nanoseconds and the zone. */
  datatype Time = Time(second: Bytes, nanos: Nanos, zone: Bytes) {
    /** `Z` for UTC; otherwise a sign and an offset. Both signs come before the point and the digits. */
    predicate Valid() {
      |second| == 19 && zone != [] && (zone == [ZULU] || zone[0] < DOT)
    }

    function Key(): Bytes {
      NinePowers();
      second + Fraction(nanos, 9) + zone
    }

    /** One unit of the last digit that is written, in nanoseconds; a whole second when there is no fraction. */
    function Unit(): nat {
      NinePowers();
      Pow10(9 - |Trimmed(nanos, 9)|)
    }

    /** Earlier, for two instants written in one zone; seconds have a fixed width, so their bytes are in time order. */
    predicate Before(u: Time) {
      Less(second, u.second) || (second == u.second && nanos < u.nanos)
    }
  }

  lemma {:induction false} TrimmedOrder(a: nat, b: nat, w: nat, zone: Bytes)
    requires a < b < Pow10(w) && zone != [] && (zone == [ZULU] || zone[0] < DOT)
    ensures Less(Trimmed(a, w) + zone, Trimmed(b, w) + zone)
      <==> zone[0] < DOT || a + Pow10(w - |Trimmed(a, w)|) <= b
    decreases w
  {
    hide Lead, Rest, Pow10;
    var x, y := Trimmed(a, w) + zone, Trimmed(b, w) + zone;
    PowStep(w);
    assert y[0] == ZERO + Lead(b, w);
    if a == 0 {
      assert x == zone;
    } else {
      LeadOrder(a, b, w);
      assert x[0] == ZERO + Lead(a, w);
      assert x[1..] == Trimmed(Rest(a, w), w - 1) + zone;
      assert y[1..] == Trimmed(Rest(b, w), w - 1) + zone;
      if Lead(a, w) == Lead(b, w) {
        TrimmedOrder(Rest(a, w), Rest(b, w), w - 1, zone);
      } else {
        TrimmedRoom(Rest(a, w), w - 1);
      }
    }
  }

  /** A trimmed fraction and the next one of its length lie within the same power of ten. */
  lemma {:induction false} TrimmedRoom(n: nat, w: nat)
    requires n < Pow10(w)
    ensures n + Pow10(w - |Trimmed(n, w)|) <= Pow10(w)
    decreases w
  {
    hide Lead, Rest, Pow10;
    PowStep(w);
    if n != 0 {
      LeadOrder(n, n, w);
      TrimmedRoom(Rest(n, w), w - 1);
    }
  }

  lemma {:induction false} LessSecond(a: Bytes, b: Bytes, x: Bytes, y: Bytes)
    requires |a| == |b| && Less(a, b)
    ensures Less(a + x, b + y)
  {
    assert (a + x)[1..] == a[1..] + x && (b + y)[1..] == b[1..] + y;
    if a[0] == b[0] {
      LessSecond(a[1..], b[1..], x, y);
    }
  }

  /** Two strings that start alike are in the order of what follows; otherwise the first byte decides. */
  lemma LessHead(x: Bytes, y: Bytes)
    requires x != [] && y != []
    ensures Less(x, y) <==> x[0] < y[0] || (x[0] == y[0] && Less(x[1..], y[1..]))
  {
  }

  lemma HeadTail(c: Byte, s: Bytes, t: Bytes)
    ensures ([c] + s + t)[0] == c && ([c] + s + t)[1..] == s + t
  {
  }

  lemma FractionOrder(a: nat, b: nat, w: nat, zone: Bytes)
    requires a < b < Pow10(w) && zone != [] && (zone == [ZULU] || zone[0] < DOT)
    ensures Less(Fraction(a, w) + zone, Fraction(b, w) + zone)
      <==> zone[0] < DOT || a + Pow10(w - |Trimmed(a, w)|) <= b
  {
    hide Pow10, Less;
    assert a == 0 ==> Trimmed(a, w) == [] && Fraction(a, w) == [];
    assert a != 0 ==> Fraction(a, w) == [DOT] + Trimmed(a, w);
    assert Fraction(b, w) == [DOT] + Trimmed(b, w);
    hide Fraction, Trimmed;
    var x, y := Fraction(a, w) + zone, Fraction(b, w) + zone;
    LessHead(x, y);
    HeadTail(DOT, Trimmed(b, w), zone);
    if a == 0 {
      assert x == zone;
    } else {
      HeadTail(DOT, Trimmed(a, w), zone);
      TrimmedOrder(a, b, w, zone);
    }
  }

  /**
   * Keys of one zone are in time order, but for one case: in UTC, two instants of one second, the later one less than
   * one unit of the earlier one's last written digit after it. Then the `Z` that ends the shorter key is compared with
   * the next digit, or with the point, of the longer one, and comes after it.
   */
  lemma KeyOrderIff(t: Time, u: Time)
    requires t.Valid() && u.Valid() && t.zone == u.zone && t.Before(u)
    ensures Less(t.Key(), u.Key())
      <==> t.zone != [ZULU] || t.second != u.second || t.nanos + t.Unit() <= u.nanos
  {
    hide Less, Pow10, Trimmed, Fraction;
    NinePowers();
    var x, y := Fraction(t.nanos, 9) + t.zone, Fraction(u.nanos, 9) + u.zone;
    assert t.Key() == t.second + x && u.Key() == u.second + y;
    LessTotal(t.second, t.second);
    if t.second != u.second {
      LessSecond(t.second, u.second, x, y);
    } else {
      LessPrefix(t.second, x, y);
      FractionOrder(t.nanos, u.nanos, 9, t.zone);
    }
  }

  /** A line stored for a later time of the same zone is returned exactly when the keys are in time order. */
  lemma StoredLaterIsReturned(es: seq<Log>, t: Time, u: Time, s: Bytes)
    requires Sorted(es) && t.Valid() && u.Valid() && t.zone == u.zone && t.Before(u)
    requires forall e :: e in es ==> e.text != s
    ensures s in Later(Put(es, Log(u.Key(), s)), t.Key())
      <==> t.zone != [ZULU] || t.second != u.second || t.nanos + t.Unit() <= u.nanos
  {
    KeyOrderIff(t, u);
    PutLaws(es, Log(u.Key(), s), []);
    LaterAll(Put(es, Log(u.Key(), s)), t.Key(), s);
  }

  /** What is stored half a second after a whole second of UTC is not among the logs since that second. */
  lemma HalfSecondIsLost(second: Bytes, s: Bytes)
    requires |second| == 19
    ensures var t, u := Time(second, 0, [ZULU]), Time(second, 500_000_000, [ZULU]);
      t.Before(u) && s !in Later(Put([], Log(u.Key(), s)), t.Key())
  {
    NinePowers();
    StoredLaterIsReturned([], Time(second, 0, [ZULU]), Time(second, 500_000_000, [ZULU]), s);
  }
}
