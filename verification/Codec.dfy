/** The writer and the reader every signed object goes through (pki/cert.go). */
module Codec {
  import opened Results
  import opened ByteStrings
  import Kdf

  const VERSION: Byte := 1
  const TWO63 := 0x8000_0000_0000_0000

  type Int64 = x: int | -TWO63 <= x < TWO63
  type Uint32 = x: int | 0 <= x < TWO32

  datatype Error = BadFormat | BadVersion | BadSuite

  // -------------------------------------------------------------------- encodings

  function Word(v: Uint32): (b: Bytes)
    ensures |b| == 4
  {
    BigEndian(v, 4)
  }

  function FromWord(b: Bytes): Uint32
    requires |b| == 4
  {
    EncodeDecode(b);
    Ranges();
    ValueOf(b)
  }

  /** Two's complement. */
  function Time(v: Int64): (b: Bytes)
    ensures |b| == 8
  {
    U64(if v < 0 then v + TWO64 else v)
  }

  function FromTime(b: Bytes): Int64
    requires |b| == 8
  {
    var u := FromU64(b);
    if u >= TWO63 then u - TWO64 else u
  }

  lemma WordRoundTrips(v: Uint32, b: Bytes)
    requires |b| == 4
    ensures FromWord(Word(v)) == v && Word(FromWord(b)) == b
  {
    Ranges();
    DecodeEncode(v, 4);
    EncodeDecode(b);
  }

  lemma TimeRoundTrips(v: Int64, b: Bytes)
    requires |b| == 8
    ensures FromTime(Time(v)) == v && Time(FromTime(b)) == b
  {
    U64RoundTrip(if v < 0 then v + TWO64 else v);
    EncodeDecode(b);
  }

  /** A length byte and the bytes; a longer string loses the high part of its length. */
  function Field(p: Bytes): (b: Bytes)
    ensures |b| == |p| + 1
  {
    [|p| % 256] + p
  }

  function Head(s: Byte): (b: Bytes)
    ensures |b| == 2
  {
    [VERSION, s]
  }

  function Concat(parts: seq<Bytes>): Bytes {
    if parts == [] then [] else parts[0] + Concat(parts[1..])
  }

  lemma {:induction false} ConcatSnoc(parts: seq<Bytes>, x: Bytes)
    ensures Concat(parts + [x]) == Concat(parts) + x
    decreases |parts|
  {
    if parts == [] {
      assert ([] + [x])[1..] == [];
    } else {
      ConcatSnoc(parts[1..], x);
      assert (parts + [x])[1..] == parts[1..] + [x];
    }
  }

  lemma ConcatCons(x: Bytes, parts: seq<Bytes>)
    ensures Concat([x] + parts) == x + Concat(parts)
  {
    assert ([x] + parts)[1..] == parts;
  }

  class Writer {
    var b: Bytes
    ghost var parts: seq<Bytes>

    ghost predicate Valid()
      reads this
    {
      b == Concat(parts)
    }

    constructor ()
      ensures Valid() && parts == []
    {
      b, parts := [], [];
    }

    method Raw(p: Bytes)
      requires Valid()
      modifies this
      ensures Valid() && parts == old(parts) + [p]
    {
      ConcatSnoc(parts, p);
      b, parts := b + p, parts + [p];
    }

    method PutHead(s: Byte)
      requires Valid()
      modifies this
      ensures Valid() && parts == old(parts) + [Head(s)]
    {
      Raw([VERSION, s]);
    }

    method PutWord(v: Uint32)
      requires Valid()
      modifies this
      ensures Valid() && parts == old(parts) + [Word(v)]
    {
      Raw(BigEndian(v, 4));
    }

    method PutTime(v: Int64)
      requires Valid()
      modifies this
      ensures Valid() && parts == old(parts) + [Time(v)]
    {
      Raw(U64(if v < 0 then v + TWO64 else v));
    }

    method PutField(p: Bytes)
      requires Valid()
      modifies this
      ensures Valid() && parts == old(parts) + [Field(p)]
    {
      Raw([|p| % 256] + p);
    }
  }

  // --------------------------------------------------------------------- reading

  /** What is left to read, and whether a read has failed: then all later ones do. */
  datatype In = In(b: Bytes, bad: bool)

  function Take(r: In, n: nat): (o: (Option<Bytes>, In))
    ensures o.0.Some? <==> !o.1.bad
    ensures o.0.Some? ==> |o.0.value| == n
  {
    if r.bad || n > |r.b| then (None, In(r.b, true)) else (Some(r.b[..n]), In(r.b[n..], false))
  }

  function TakeHead(r: In): (o: (Result<Byte, Error>, In)) {
    var (v, r1) := Take(r, 1);
    var (s, r2) := Take(r1, 1);
    if r2.bad then (Err(BadFormat), r2)
    else if v.value[0] != VERSION then (Err(BadVersion), r2)
    else if !Kdf.KnownSuite(s.value[0]) then (Err(BadSuite), r2)
    else (Ok(s.value[0]), r2)
  }

  /** An array of n bytes, which stays zero when the read fails. */
  function TakeFixed(r: In, n: nat): (o: (Bytes, In))
    ensures |o.0| == n
  {
    var (p, r1) := Take(r, n);
    (if p.Some? then p.value else seq(n, _ => 0), r1)
  }

  function TakeWord(r: In): (o: (Uint32, In)) {
    var (p, r1) := Take(r, 4);
    (if p.Some? then FromWord(p.value) else 0, r1)
  }

  function TakeTime(r: In): (o: (Int64, In)) {
    var (p, r1) := Take(r, 8);
    (if p.Some? then FromTime(p.value) else 0, r1)
  }

  function TakeField(r: In, least: nat, most: nat): (o: (Bytes, In)) {
    var (n, r1) := Take(r, 1);
    if n.None? then ([], r1)
    else if n.value[0] < least || n.value[0] > most then ([], In(r1.b, true))
    else
      var (p, r2) := Take(r1, n.value[0]);
      (if p.Some? then p.value else [], r2)
  }

  // Each read undoes a write, and a read that succeeds was of what a write would have put there.

  lemma TakeAppended(p: Bytes, rest: Bytes)
    ensures Take(In(p + rest, false), |p|) == (Some(p), In(rest, false))
  {}

  lemma HeadRead(s: Byte, rest: Bytes)
    requires Kdf.KnownSuite(s)
    ensures TakeHead(In(Head(s) + rest, false)) == (Ok(s), In(rest, false))
  {
    assert Head(s) + rest == [VERSION] + ([s] + rest);
    TakeAppended([VERSION], [s] + rest);
    TakeAppended([s], rest);
  }

  lemma FixedRead(p: Bytes, rest: Bytes)
    ensures TakeFixed(In(p + rest, false), |p|) == (p, In(rest, false))
  {
    TakeAppended(p, rest);
  }

  lemma FieldRead(p: Bytes, rest: Bytes, least: nat, most: nat)
    requires least <= |p| <= most < 256
    ensures TakeField(In(Field(p) + rest, false), least, most) == (p, In(rest, false))
  {
    assert Field(p) + rest == [|p| % 256] + (p + rest);
    TakeAppended([|p| % 256], p + rest);
    TakeAppended(p, rest);
  }

  lemma TakeWritten(r: In, n: nat)
    requires !Take(r, n).1.bad
    ensures var (p, r1) := Take(r, n); !r.bad && r.b == p.value + r1.b
  {}

  lemma HeadWritten(r: In)
    requires TakeHead(r).0.Ok?
    ensures var (s, r1) := TakeHead(r);
            !r.bad && !r1.bad && Kdf.KnownSuite(s.value) && r.b == Head(s.value) + r1.b
  {
    var (v, r0) := Take(r, 1);
    TakeWritten(r, 1);
    TakeWritten(r0, 1);
  }

  lemma FixedWritten(r: In, n: nat)
    requires !TakeFixed(r, n).1.bad
    ensures var (p, r1) := TakeFixed(r, n); !r.bad && r.b == p + r1.b
  {
    TakeWritten(r, n);
  }

  lemma FieldWritten(r: In, least: nat, most: nat)
    requires !TakeField(r, least, most).1.bad
    ensures var (p, r1) := TakeField(r, least, most); !r.bad && r.b == Field(p) + r1.b && least <= |p| <= most
  {
    var (n, r1) := Take(r, 1);
    TakeWritten(r, 1);
    TakeWritten(r1, n.value[0]);
    assert n.value == [n.value[0]];
  }

  // ------------------------------------------------------------- fields in a row

  /** What a format is made of after its head: arrays of a fixed size, and counted bytes. */
  datatype Item = Array(n: nat) | Counted(least: nat, most: nat)

  function Put(it: Item, v: Bytes): Bytes {
    if it.Array? then v else Field(v)
  }

  function Got(r: In, it: Item): (o: (Bytes, In)) {
    if it.Array? then TakeFixed(r, it.n) else TakeField(r, it.least, it.most)
  }

  predicate Fit(it: Item, v: Bytes) {
    if it.Array? then |v| == it.n else it.least <= |v| <= it.most < 256
  }

  function PutAll(items: seq<Item>, vs: seq<Bytes>): Bytes
    requires |items| == |vs|
  {
    if items == [] then [] else Put(items[0], vs[0]) + PutAll(items[1..], vs[1..])
  }

  function GotAll(r: In, items: seq<Item>): (o: (seq<Bytes>, In))
    ensures |o.0| == |items| && forall i :: 0 <= i < |items| && items[i].Array? ==> |o.0[i]| == items[i].n
    decreases |items|
  {
    if items == [] then ([], r)
    else
      var (v, r1) := Got(r, items[0]);
      var (vs, r2) := GotAll(r1, items[1..]);
      ([v] + vs, r2)
  }

  function PutParts(items: seq<Item>, vs: seq<Bytes>): seq<Bytes>
    requires |items| == |vs|
  {
    seq(|items|, i requires 0 <= i < |items| => Put(items[i], vs[i]))
  }

  lemma {:induction false} PutIsConcat(items: seq<Item>, vs: seq<Bytes>)
    requires |items| == |vs|
    ensures PutAll(items, vs) == Concat(PutParts(items, vs))
    decreases |items|
  {
    if items != [] {
      PutIsConcat(items[1..], vs[1..]);
      assert PutParts(items, vs)[1..] == PutParts(items[1..], vs[1..]);
    }
  }

  lemma GotFirst(r: In, it: Item, items: seq<Item>)
    ensures var (v, r1) := Got(r, it);
            GotAll(r, [it] + items) == ([v] + GotAll(r1, items).0, GotAll(r1, items).1)
  {
    assert ([it] + items)[1..] == items;
  }

  lemma ZeroTime()
    ensures FromTime(seq(8, _ => 0)) == 0
  {
    ZeroValue(8);
  }

  lemma {:induction false} ZeroValue(n: nat)
    ensures ValueOf(seq(n, _ => 0)) == 0
  {
    if n > 0 {
      ZeroValue(n - 1);
      var z: Bytes := seq(n, _ => 0);
      assert z[..n - 1] == seq(n - 1, _ => 0);
    }
  }

  /** A time or a number is an array of its size, zero when the read fails. */
  lemma TimeIsArray(r: In)
    ensures TakeTime(r) == (FromTime(TakeFixed(r, 8).0), TakeFixed(r, 8).1)
  {
    ZeroTime();
  }

  lemma WordIsArray(r: In)
    ensures TakeWord(r) == (FromWord(TakeFixed(r, 4).0), TakeFixed(r, 4).1)
  {
    ZeroValue(4);
  }

  predicate FitAll(items: seq<Item>, vs: seq<Bytes>) {
    |items| == |vs| && forall i :: 0 <= i < |items| ==> Fit(items[i], vs[i])
  }

  lemma GotPut(it: Item, v: Bytes, rest: Bytes)
    requires Fit(it, v)
    ensures Got(In(Put(it, v) + rest, false), it) == (v, In(rest, false))
  {
    if it.Array? {
      FixedRead(v, rest);
    } else {
      FieldRead(v, rest, it.least, it.most);
    }
  }

  lemma PutGot(r: In, it: Item)
    requires !Got(r, it).1.bad && (it.Counted? ==> it.most < 256)
    ensures var (v, r1) := Got(r, it); !r.bad && Fit(it, v) && r.b == Put(it, v) + r1.b
  {
    if it.Array? {
      FixedWritten(r, it.n);
    } else {
      FieldWritten(r, it.least, it.most);
    }
  }

  /** What was put there is read back, and nothing more. */
  lemma {:induction false} AllRead(items: seq<Item>, vs: seq<Bytes>, rest: Bytes)
    requires FitAll(items, vs)
    ensures GotAll(In(PutAll(items, vs) + rest, false), items) == (vs, In(rest, false))
    decreases |items|
  {
    if items == [] {
      assert PutAll(items, vs) + rest == rest;
    } else {
      var more := PutAll(items[1..], vs[1..]);
      assert PutAll(items, vs) + rest == Put(items[0], vs[0]) + (more + rest);
      GotPut(items[0], vs[0], more + rest);
      AllRead(items[1..], vs[1..], rest);
      assert [vs[0]] + vs[1..] == vs;
    }
  }

  predicate Bounded(items: seq<Item>) {
    forall i :: 0 <= i < |items| ==> (items[i].Counted? ==> items[i].most < 256)
  }

  lemma Rejoin(b: Bytes, x: Bytes, rest: Bytes, more: Bytes, end: Bytes)
    requires b == x + rest && rest == more + end
    ensures b == (x + more) + end
  {}

  lemma FitCons(items: seq<Item>, v: Bytes, vs: seq<Bytes>)
    requires items != [] && Fit(items[0], v) && FitAll(items[1..], vs)
    ensures FitAll(items, [v] + vs) && PutAll(items, [v] + vs) == Put(items[0], v) + PutAll(items[1..], vs)
  {
    assert ([v] + vs)[1..] == vs;
    forall i | 0 < i < |items| ensures Fit(items[i], ([v] + vs)[i]) {
      assert Fit(items[1..][i - 1], vs[i - 1]);
    }
  }

  /** What is read without failing was put there. */
  lemma {:induction false} AllWritten(r: In, items: seq<Item>)
    requires Bounded(items) && !GotAll(r, items).1.bad
    ensures var (vs, r1) := GotAll(r, items);
            !r.bad && FitAll(items, vs) && r.b == PutAll(items, vs) + r1.b
    decreases |items|
  {
    if items != [] {
      var (v, r1) := Got(r, items[0]);
      AllWritten(r1, items[1..]);
      PutGot(r, items[0]);
      var (vs, r2) := GotAll(r1, items[1..]);
      FitCons(items, v, vs);
      Rejoin(r.b, Put(items[0], v), r1.b, PutAll(items[1..], vs), r2.b);
    } else {
      assert r.b == [] + r.b;
    }
  }

  /** The reader, which consumes its buffer. */
  class Reader {
    var b: Bytes
    var bad: bool

    function State(): In
      reads this
    {
      In(b, bad)
    }

    constructor (b: Bytes)
      ensures State() == In(b, false)
    {
      this.b, bad := b, false;
    }

    method Next(n: nat) returns (p: Option<Bytes>)
      modifies this
      ensures (p, State()) == Take(old(State()), n)
    {
      if bad || n > |b| {
        bad := true;
        return None;
      }
      p := Some(b[..n]);
      b := b[n..];
    }

    method NextHead() returns (s: Result<Byte, Error>)
      modifies this
      ensures (s, State()) == TakeHead(old(State()))
    {
      var v := Next(1);
      var t := Next(1);
      if bad {
        return Err(BadFormat);
      }
      if v.value[0] != VERSION {
        return Err(BadVersion);
      }
      if !Kdf.KnownSuite(t.value[0]) {
        return Err(BadSuite);
      }
      return Ok(t.value[0]);
    }

    method NextFixed(n: nat) returns (p: Bytes)
      modifies this
      ensures (p, State()) == TakeFixed(old(State()), n)
    {
      var q := Next(n);
      p := if q.Some? then q.value else seq(n, _ => 0);
    }

    method NextWord() returns (v: Uint32)
      modifies this
      ensures (v, State()) == TakeWord(old(State()))
    {
      var q := Next(4);
      v := if q.Some? then FromWord(q.value) else 0;
    }

    method NextTime() returns (v: Int64)
      modifies this
      ensures (v, State()) == TakeTime(old(State()))
    {
      var q := Next(8);
      v := if q.Some? then FromTime(q.value) else 0;
    }

    method NextField(least: nat, most: nat) returns (p: Bytes)
      modifies this
      ensures (p, State()) == TakeField(old(State()), least, most)
    {
      var n := Next(1);
      if bad {
        return [];
      }
      if n.value[0] < least || n.value[0] > most {
        bad := true;
        return [];
      }
      var q := Next(n.value[0]);
      p := if q.Some? then q.value else [];
    }
  }
}
