/** Counters of a link and of a circuit (wire/counter.go). */
module Counters {
  import opened ByteStrings

  /** Link values wrap here; a nonce takes no counter at or past it. */
  const COUNTER_LIMIT: nat := TWO62

  /** No link carries more cells than this each way. */
  const CELL_LIMIT: nat := 0x1000_0000_0000_0000

  type Counter = x: int | 0 <= x < COUNTER_LIMIT

  datatype Direction = Forward | Backward

  /** One hop's counter offsets, one per direction. */
  datatype Offsets = Offsets(forward: Counter, backward: Counter) {
    function At(dir: Direction): Counter {
      if dir.Forward? then forward else backward
    }
  }

  /** value + offset in 64 bits, masked to 62: the two wraps together are one. */
  function Shift(value: Uint64, offset: Uint64): (r: Counter)
    ensures value < COUNTER_LIMIT && offset < COUNTER_LIMIT
        ==> r == value + offset || r == value + offset - COUNTER_LIMIT
  {
    ((value + offset) % TWO64) % COUNTER_LIMIT
  }

  function Unshift(value: Uint64, offset: Uint64): (r: Counter)
    ensures value < COUNTER_LIMIT && offset < COUNTER_LIMIT
        ==> r == value - offset || r == value - offset + COUNTER_LIMIT
  {
    ((value - offset) % TWO64) % COUNTER_LIMIT
  }

  /** The two counters that differ by a multiple of the modulus are one. */
  lemma UnshiftShift(v: Counter, o: Counter)
    ensures Unshift(Shift(v, o), o) == v
    ensures Shift(Unshift(v, o), o) == v
  {
    assert Shift(v, o) in {v + o, v + o - COUNTER_LIMIT};
    assert Unshift(v, o) in {v - o, v - o + COUNTER_LIMIT};
  }

  lemma ShiftAssociates(v: Counter, a: Counter, b: Counter)
    ensures Shift(Shift(v, a), b) == Shift(v, Shift(a, b))
    ensures Shift(v, a) == Shift(a, v)
  {
    var l, r := Shift(Shift(v, a), b), Shift(v, Shift(a, b));
    assert l in {v + a + b, v + a + b - COUNTER_LIMIT, v + a + b - 2 * COUNTER_LIMIT};
    assert r in {v + a + b, v + a + b - COUNTER_LIMIT, v + a + b - 2 * COUNTER_LIMIT};
  }

  lemma UnshiftAssociates(v: Counter, a: Counter, b: Counter)
    ensures Unshift(Unshift(v, a), b) == Unshift(v, Shift(a, b))
  {
    var l, r := Unshift(Unshift(v, a), b), Unshift(v, Shift(a, b));
    assert l in {v - a - b, v - a - b + COUNTER_LIMIT, v - a - b + 2 * COUNTER_LIMIT};
    assert r in {v - a - b, v - a - b + COUNTER_LIMIT, v - a - b + 2 * COUNTER_LIMIT};
  }

  /** Values closer together than the modulus stay apart once shifted. */
  lemma ShiftInjective(v: Counter, w: Counter, o: Counter)
    requires Shift(v, o) == Shift(w, o)
    ensures v == w
  {
    UnshiftShift(v, o);
    UnshiftShift(w, o);
  }

  /** What a run of hops adds to a counter, in one direction. */
  function Sum(offsets: seq<Offsets>, dir: Direction): Counter {
    if offsets == [] then 0 else Shift(Sum(offsets[..|offsets| - 1], dir), offsets[|offsets| - 1].At(dir))
  }

  lemma SumSnoc(offsets: seq<Offsets>, i: nat, dir: Direction)
    requires i < |offsets|
    ensures Sum(offsets[..i + 1], dir) == Shift(Sum(offsets[..i], dir), offsets[i].At(dir))
  {
    assert offsets[..i + 1][..i] == offsets[..i];
  }
}

/** Nonces (wire/nonce.go): derived from values both ends know. */
module Nonces {
  import opened Results
  import opened ByteStrings
  import opened Counters

  datatype NonceError = CounterExhausted | NonceTooSmall

  function DirBit(dir: Direction): (b: Byte) {
    if dir.Forward? then 0 else 1
  }

  function Zeros(n: nat): (b: Bytes)
    ensures |b| == n
  {
    seq(n, _ => 0)
  }

  function NonceFor(size: nat, dir: Direction, circuit: Uint64, counter: Uint64): (r: Result<Bytes, NonceError>)
    ensures r.Ok? <==> counter < COUNTER_LIMIT && size >= 16
    ensures r.Ok? ==> |r.value| == size
  {
    if counter >= COUNTER_LIMIT then Err(CounterExhausted)
    else if size >= 17 then
      Ok([DirBit(dir)] + U64(circuit) + U64(counter) + Zeros(size - 17))
    else if size == 16 then
      Ok(U64(counter + DirBit(dir) * TWO62) + U64(circuit))
    else Err(NonceTooSmall)
  }

  /** Two nonces of one size agree only when direction, circuit and counter all do. */
  lemma NonceInjective(size: nat, d1: Direction, c1: Uint64, v1: Uint64, d2: Direction, c2: Uint64, v2: Uint64)
    requires NonceFor(size, d1, c1, v1).Ok? && NonceFor(size, d2, c2, v2).Ok?
    requires NonceFor(size, d1, c1, v1) == NonceFor(size, d2, c2, v2)
    ensures d1 == d2 && c1 == c2 && v1 == v2
  {
    var n1, n2 := NonceFor(size, d1, c1, v1).value, NonceFor(size, d2, c2, v2).value;
    if size >= 17 {
      assert n1[0] == DirBit(d1) && n2[0] == DirBit(d2);
      assert n1[1..9] == U64(c1) && n2[1..9] == U64(c2);
      assert n1[9..17] == U64(v1) && n2[9..17] == U64(v2);
      U64Injective(c1, c2);
      U64Injective(v1, v2);
    } else {
      assert n1[..8] == U64(v1 + DirBit(d1) * TWO62) && n2[..8] == U64(v2 + DirBit(d2) * TWO62);
      assert n1[8..] == U64(c1) && n2[8..] == U64(c2);
      U64Injective(v1 + DirBit(d1) * TWO62, v2 + DirBit(d2) * TWO62);
      U64Injective(c1, c2);
    }
  }

  /** The first byte of a big-endian integer is its top eight bits. */
  lemma {:induction false} LeadingByte(v: nat, n: nat)
    requires n >= 1 && v < Range(n)
    ensures BigEndian(v, n)[0] == v / Range(n - 1)
  {
    if n > 1 {
      LeadingByte(v / 256, n - 1);
      DivDiv(v, Range(n - 2));
    }
  }

  lemma DivDiv(v: nat, d: nat)
    requires d >= 1
    ensures (v / 256) / d == v / (256 * d)
  {
    var q, r := v / (256 * d), v % (256 * d);
    assert v == 256 * d * q + r;
    var s := r / 256;
    assert v / 256 == d * q + s by {
      assert v == 256 * (d * q + s) + r % 256;
    }
    assert s < d;
    assert (d * q + s) / d == q by {
      QuotientOf(d * q + s, d, q, s);
    }
  }

  lemma AtLeastOnce(d: int, k: int)
    requires d >= 1 && k >= 1
    ensures d * k >= d
  {}

  lemma QuotientOf(x: int, d: int, q: int, s: int)
    requires d >= 1 && 0 <= s < d && x == d * q + s
    ensures x / d == q
  {
    var p := x / d;
    assert x % d == d * (q - p) + s;
    if p < q {
      AtLeastOnce(d, q - p);
    } else if p > q {
      AtLeastOnce(d, p - q);
    }
  }

  /** MGM refuses a 16-byte nonce with its top bit set: none is ever built. */
  lemma TopBitClear(dir: Direction, circuit: Uint64, counter: Uint64)
    requires NonceFor(16, dir, circuit, counter).Ok?
    ensures NonceFor(16, dir, circuit, counter).value[0] < 128
  {
    Ranges();
    var w := counter + DirBit(dir) * TWO62;
    LeadingByte(w, 8);
    assert Range(8) == 256 * Range(7);
    assert w / Range(7) < 128;
  }
}

/** Fixed-size cells (wire/cell.go). */
module Cells {
  import opened Results
  import opened ByteStrings
  import opened Counters

  const CELL_SIZE: nat := 512
  const HEADER_SIZE: nat := 18
  const BODY_SIZE: nat := CELL_SIZE - HEADER_SIZE
  const VERSION: Byte := 2
  const MAX_HOPS: nat := 8

  datatype Kind = Data | Control | Padding

  function KindByte(k: Kind): Byte {
    match k
    case Data => 1
    case Control => 3
    case Padding => 4
  }

  function KindOf(b: Byte): (k: Option<Kind>)
    ensures k.Some? <==> b in {1, 3, 4}
    ensures k.Some? ==> KindByte(k.value) == b
  {
    if b == 1 then Some(Data) else if b == 3 then Some(Control) else if b == 4 then Some(Padding) else None
  }

  type Cell = c: Bytes | |c| == CELL_SIZE witness seq(CELL_SIZE, _ => 0)

  type Body = b: Bytes | |b| == BODY_SIZE witness seq(BODY_SIZE, _ => 0)

  datatype Header = Header(kind: Kind, circuit: Uint64, counter: Uint64)

  function NewCell(h: Header, body: Body): (c: Cell)
    ensures BodyOf(c) == body
    ensures c[0] == VERSION && c[1] == KindByte(h.kind)
  {
    [VERSION, KindByte(h.kind)] + U64(h.circuit) + U64(h.counter) + body
  }

  function BodyOf(c: Cell): (b: Body) {
    c[HEADER_SIZE..]
  }

  /** None stands for an unknown version or kind. */
  function HeaderOf(c: Cell): (h: Option<Header>) {
    if c[0] != VERSION then None
    else match KindOf(c[1])
      case None => None
      case Some(k) => Some(Header(k, FromU64(c[2..10]), FromU64(c[10..18])))
  }

  function SetCircuit(c: Cell, id: Uint64): (r: Cell)
    ensures BodyOf(r) == BodyOf(c)
  {
    var r := c[..2] + U64(id) + c[10..];
    assert r[HEADER_SIZE..] == c[HEADER_SIZE..];
    r
  }

  /** What a layer of a cell is bound to besides its nonce. */
  function CellAd(c: Cell, counter: Uint64, hop: nat): (ad: Bytes)
    ensures |ad| == 11
  {
    c[..2] + U64(counter) + [hop % 256]
  }

  lemma HeaderRoundTrip(h: Header, body: Body)
    ensures HeaderOf(NewCell(h, body)) == Some(h)
  {
    var c := NewCell(h, body);
    assert c[2..10] == U64(h.circuit) && c[10..18] == U64(h.counter);
    U64RoundTrip(h.circuit);
    U64RoundTrip(h.counter);
  }

  /** Relabelling changes the circuit and nothing else. */
  lemma Relabelled(c: Cell, id: Uint64)
    requires HeaderOf(c).Some?
    ensures HeaderOf(SetCircuit(c, id)) == Some(HeaderOf(c).value.(circuit := id))
  {
    var r := SetCircuit(c, id);
    assert r[2..10] == U64(id) && r[10..18] == c[10..18];
    U64RoundTrip(id);
  }

  /** A cell has this header exactly when it is what that header and its own body make. */
  lemma HeaderExactly(c: Cell, h: Header)
    ensures HeaderOf(c) == Some(h) <==> NewCell(h, BodyOf(c)) == c
  {
    HeaderRoundTrip(h, BodyOf(c));
    if HeaderOf(c) == Some(h) {
      CellFromParts(c);
    }
  }

  /** A cell is its header and its body: nothing else is on the wire. */
  lemma CellFromParts(c: Cell)
    requires HeaderOf(c).Some?
    ensures NewCell(HeaderOf(c).value, BodyOf(c)) == c
  {
    EncodeDecode(c[2..10]);
    EncodeDecode(c[10..18]);
    assert c == c[..2] + c[2..10] + c[10..18] + c[18..];
  }

  /** The bytes CellAd starts with, for a cell of a known kind. */
  lemma AdOfKind(c: Cell, counter: Uint64, hop: nat)
    requires HeaderOf(c).Some?
    ensures CellAd(c, counter, hop)
         == [VERSION, KindByte(HeaderOf(c).value.kind)] + U64(counter) + [hop % 256]
  {
    assert c[..2] == [c[0], c[1]];
  }
}
