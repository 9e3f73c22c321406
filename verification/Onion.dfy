/** Nested layers of a data cell (wire/onion.go). */
module Onion {
  import opened Results
  import opened ByteStrings
  import opened Counters
  import opened Nonces
  import opened Cells
  import opened Ciphers

  const LENGTH_PREFIX: nat := 2
  const COVER_FLAG: nat := 0x8000

  datatype WireError =
    | NoHops | Mismatch | Closed | PayloadSize | Exhausted | NonceSize
    | BadHeader | BadKind | NotOpened | Framing | HopIndex | NoRoom

  /** What the innermost layer carries. */
  datatype Message = Message(payload: Bytes, cover: bool)

  // ---------------------------------------------------------------- framing

  /** Length prefix, data, and whatever random bytes fill the rest. */
  function Frame(m: Message, fill: Bytes): (r: Result<Bytes, WireError>)
    ensures r.Ok? <==> |m.payload| + LENGTH_PREFIX <= |fill| && |m.payload| < COVER_FLAG
    ensures r.Ok? ==> |r.value| == |fill|
    ensures r.Err? ==> r.error == PayloadSize
  {
    if |m.payload| + LENGTH_PREFIX > |fill| || |m.payload| >= COVER_FLAG then Err(PayloadSize)
    else
      var n := |m.payload| + if m.cover then COVER_FLAG else 0;
      Ok(Overlay(BigEndian(n, 2) + m.payload, fill))
  }

  function Unframe(inner: Bytes): (r: Result<Message, WireError>)
    ensures r.Err? ==> r.error == Framing
  {
    if |inner| < LENGTH_PREFIX then Err(Framing)
    else
      var v := ValueOf(inner[..2]);
      var cover := v / COVER_FLAG % 2 == 1;
      var n := v % COVER_FLAG;
      if n > |inner| - LENGTH_PREFIX || (cover && n != 0) then Err(Framing)
      else Ok(Message(inner[LENGTH_PREFIX..LENGTH_PREFIX + n], cover))
  }

  /** A framed message is read back whatever stands behind it. */
  lemma UnframeFramed(m: Message, fill: Bytes, body: Bytes)
    requires Frame(m, fill).Ok?
    requires m.cover ==> m.payload == []
    requires |fill| <= |body| && body[..|fill|] == Frame(m, fill).value
    ensures Unframe(body) == Ok(m)
  {
    var inner := Frame(m, fill).value;
    var n := |m.payload| + if m.cover then COVER_FLAG else 0;
    Ranges();
    DecodeEncode(n, 2);
    assert body[..2] == inner[..2] == BigEndian(n, 2);
    assert body[2..2 + |m.payload|] == inner[2..2 + |m.payload|] == m.payload;
  }

  /** A body reads as a message exactly when framing that message over the body leaves the body as it is. */
  lemma UnframesExactly(body: Bytes, m: Message)
    ensures Unframe(body) == Ok(m) <==> Frame(m, body) == Ok(body) && (m.cover ==> m.payload == [])
  {
    Ranges();
    if Frame(m, body) == Ok(body) && (m.cover ==> m.payload == []) {
      UnframeFramed(m, body, body);
    }
    if Unframe(body) == Ok(m) {
      var v := ValueOf(body[..2]);
      EncodeDecode(body[..2]);
      assert v == |m.payload| + if m.cover then COVER_FLAG else 0;
      assert body == body[..2] + m.payload + body[2 + |m.payload|..];
    }
  }

  // ---------------------------------------------------- the client's circuit

  /** One key per hop, first hop to exit; before[i] sums the offsets in front of hop i. */
  datatype Circuit = Circuit(aead: Aead, keys: seq<Key>, links: seq<Uint64>, before: seq<Offsets>, total: Offsets)
  {
    function Hops(): nat { |keys| }

    predicate Shaped() {
      |links| == |keys| && |before| == |keys|
    }

    function MaxPayload(): int {
      LayerLen(|keys|, aead.overhead) - LENGTH_PREFIX
    }
  }

  function SumBoth(offsets: seq<Offsets>): Offsets {
    Offsets(Sum(offsets, Forward), Sum(offsets, Backward))
  }

  /** The circuit NewCircuit makes of these offsets. */
  ghost predicate BuiltFrom(c: Circuit, offsets: seq<Offsets>) {
    && c.Shaped()
    && |c.keys| == |offsets| >= 1
    && (forall i :: 0 <= i < |offsets| ==> c.before[i] == SumBoth(offsets[..i]))
    && c.total == SumBoth(offsets)
  }

  method NewCircuit(a: Aead, keys: seq<Key>, offsets: seq<Offsets>, links: seq<Uint64>)
    returns (r: Result<Circuit, WireError>)
    ensures r.Ok? <==> |keys| >= 1 && |links| == |keys| == |offsets|
    ensures r.Ok? ==> BuiltFrom(r.value, offsets)
    ensures r.Ok? ==> r.value.aead == a && r.value.keys == keys && r.value.links == links
  {
    if |keys| == 0 {
      return Err(NoHops);
    }
    if |links| != |keys| || |offsets| != |keys| {
      return Err(Mismatch);
    }
    var before: seq<Offsets>, sum := [], Offsets(0, 0);
    for i := 0 to |keys|
      invariant |before| == i
      invariant forall j :: 0 <= j < i ==> before[j] == SumBoth(offsets[..j])
      invariant sum == SumBoth(offsets[..i])
    {
      SumSnoc(offsets, i, Forward);
      SumSnoc(offsets, i, Backward);
      before := before + [sum];
      sum := Offsets(Shift(sum.forward, offsets[i].forward), Shift(sum.backward, offsets[i].backward));
    }
    assert offsets[..|keys|] == offsets;
    return Ok(Circuit(a, keys, links, before, sum));
  }

  /** What a counter at the client's end becomes at hop i's link, by the offsets passed on the way. */
  function ValueAt(c: Circuit, i: nat, dir: Direction, first: Uint64): Counter
    requires c.Shaped() && i < c.Hops()
  {
    if dir.Forward? then Shift(first, c.before[i].forward) else Unshift(first, c.before[i].backward)
  }

  /** Takes all backward offsets off a reply's counter again. */
  function ReplyNumber(c: Circuit, counter: Uint64): Counter {
    Unshift(counter, c.total.backward)
  }

  /** Associated data of a data cell's layer. */
  function DataAd(counter: Uint64, hop: nat): (ad: Bytes) {
    [VERSION, KindByte(Data)] + U64(counter) + [hop % 256]
  }

  /** The nonce of the layer of hop i for the value its link carries. */
  function LayerNonce(c: Circuit, i: nat, dir: Direction, value: Counter): Bytes
    requires c.Shaped() && i < c.Hops() && c.aead.nonceSize >= 16
  {
    NonceFor(c.aead.nonceSize, dir, c.links[i], value).value
  }

  /** How many bytes of a body belong to layer i: each tag taken off leaves that much less. */
  function LayerLen(index: nat, overhead: nat): int {
    BODY_SIZE - Tags(index, overhead)
  }

  /** n tags of this size, as repeated addition. */
  function Tags(n: nat, overhead: nat): nat {
    if n == 0 then 0 else Tags(n - 1, overhead) + overhead
  }

  lemma {:induction false} LayerLenIsProduct(index: nat, overhead: nat)
    ensures LayerLen(index, overhead) == BODY_SIZE - index * overhead
  {
    if index > 0 {
      LayerLenIsProduct(index - 1, overhead);
    }
  }

  lemma {:induction false} TagsGrow(i: nat, n: nat, overhead: nat)
    requires i <= n
    ensures Tags(i, overhead) <= Tags(n, overhead)
  {
    if i < n {
      TagsGrow(i, n - 1, overhead);
    }
  }

  /**
   Layers i to the exit around inner, each bound to the value of its own link:
   what hop i opens on the way out and what it has sealed on the way back.
   */
  function Nest(c: Circuit, dir: Direction, first: Uint64, inner: Bytes, i: nat): Bytes
    requires c.Shaped() && i <= c.Hops() && c.aead.nonceSize >= 16
    decreases c.Hops() - i
  {
    if i == c.Hops() then inner
    else
      var v := ValueAt(c, i, dir, first);
      c.aead.seal(c.keys[i], LayerNonce(c, i, dir, v), Nest(c, dir, first, inner, i + 1), DataAd(v, i))
  }

  /** Inner text that leaves exactly room for one tag per hop fills layer i exactly. */
  lemma {:induction false} NestFits(c: Circuit, dir: Direction, first: Uint64, inner: Bytes, i: nat)
    requires c.Shaped() && i <= c.Hops() && c.aead.nonceSize >= 16 && Lengths(c.aead)
    requires |inner| == LayerLen(c.Hops(), c.aead.overhead)
    ensures |Nest(c, dir, first, inner, i)| == LayerLen(i, c.aead.overhead)
    decreases c.Hops() - i
  {
    if i < c.Hops() {
      NestFits(c, dir, first, inner, i + 1);
    }
  }

  // ------------------------------------------------------- sealing a cell

  /** One call of the cipher's seal, by the key of a hop. */
  datatype Made = Made(hop: nat, sealing: Sealing)

  /** A key, named by its hop, used once under a nonce. */
  datatype Use = Use(hop: nat, nonce: Bytes)

  function UseOf(m: Made): Use {
    Use(m.hop, m.sealing.nonce)
  }

  function UsesOf(made: seq<Made>): (u: seq<Use>)
    ensures |u| == |made|
  {
    seq(|made|, i requires 0 <= i < |made| => UseOf(made[i]))
  }

  function SealingsOf(made: seq<Made>): set<Sealing> {
    set m | m in made :: m.sealing
  }

  /** The calls that seal one cell, in the order they happen: each layer around the one before. */
  function LayersMade(c: Circuit, counter: Counter, inner: Bytes, i: nat): (made: seq<Made>)
    requires c.Shaped() && i <= c.Hops() && c.aead.nonceSize >= 16
    ensures |made| == c.Hops() - i
    decreases c.Hops() - i
  {
    if i == c.Hops() then []
    else
      var v := ValueAt(c, i, Forward, counter);
      LayersMade(c, counter, inner, i + 1)
      + [Made(i, Sealing(c.keys[i], LayerNonce(c, i, Forward, v), Nest(c, Forward, counter, inner, i + 1), DataAd(v, i)))]
  }

  /** The uses of one sealed cell, in the order they happen: exit first. */
  function SealUses(c: Circuit, counter: Counter, i: nat): (u: seq<Use>)
    requires c.Shaped() && i <= c.Hops() && c.aead.nonceSize >= 16
    decreases c.Hops() - i
  {
    if i == c.Hops() then []
    else SealUses(c, counter, i + 1) + [Use(i, LayerNonce(c, i, Forward, ValueAt(c, i, Forward, counter)))]
  }

  predicate CanSeal(c: Circuit, counter: Uint64, m: Message) {
    c.Hops() > 0 && |m.payload| <= c.MaxPayload() && counter < CELL_LIMIT && c.aead.nonceSize >= 16
  }

  /** What Seal returns; fill stands for the random padding. */
  function SealedCell(c: Circuit, counter: Uint64, m: Message, fill: Bytes): (r: Result<Cell, WireError>)
    requires c.Shaped() && Lengths(c.aead)
    requires |fill| == LayerLen(c.Hops(), c.aead.overhead) || c.MaxPayload() < 0
    ensures r.Ok? <==> CanSeal(c, counter, m)
    ensures r.Err? ==> r.error == if c.Hops() == 0 then Closed
                                  else if |m.payload| > c.MaxPayload() then PayloadSize
                                  else if counter >= CELL_LIMIT then Exhausted
                                  else NonceSize
    ensures r.Ok? ==> BodyOf(r.value) == Nest(c, Forward, counter, Frame(m, fill).value, 0)
  {
    if c.Hops() == 0 then Err(Closed)
    else if |m.payload| > c.MaxPayload() then Err(PayloadSize)
    else if counter >= CELL_LIMIT then Err(Exhausted)
    else if c.aead.nonceSize < 16 then Err(NonceSize)
    else
      NestFits(c, Forward, counter, Frame(m, fill).value, 0);
      Ok(NewCell(Header(Data, c.links[0], counter), Nest(c, Forward, counter, Frame(m, fill).value, 0)))
  }

  /**
   The layers are wrapped from the exit inwards. An error leaves before any key
   was used: none comes from the middle of the loop, so a retry under the same
   counter seals nothing twice.
   */
  method Seal(c: Circuit, counter: Uint64, m: Message, fill: Bytes)
    returns (r: Result<Cell, WireError>, made: seq<Made>)
    requires c.Shaped() && Lengths(c.aead)
    requires |fill| == LayerLen(c.Hops(), c.aead.overhead) || c.MaxPayload() < 0
    ensures r == SealedCell(c, counter, m, fill)
    ensures r.Err? ==> made == []
    ensures r.Ok? ==> made == LayersMade(c, counter, Frame(m, fill).value, 0)
  {
    made := [];
    if c.Hops() == 0 {
      return Err(Closed), made;
    }
    if |m.payload| > c.MaxPayload() {
      return Err(PayloadSize), made;
    }
    if counter >= CELL_LIMIT {
      return Err(Exhausted), made;
    }
    var framed := Frame(m, fill);
    assert framed.Ok?;
    var blank := NewCell(Header(Data, c.links[0], counter), Zeros(BODY_SIZE));
    HeaderRoundTrip(Header(Data, c.links[0], counter), Zeros(BODY_SIZE));
    var body, i := framed.value, c.Hops();
    while i > 0
      invariant 0 <= i <= c.Hops()
      invariant c.aead.nonceSize >= 16 || i == c.Hops()
      invariant i == c.Hops() ==> body == framed.value && made == []
      invariant c.aead.nonceSize >= 16 ==>
                  body == Nest(c, Forward, counter, framed.value, i) && made == LayersMade(c, counter, framed.value, i)
    {
      i := i - 1;
      var value := ValueAt(c, i, Forward, counter);
      var nonce := NonceFor(c.aead.nonceSize, Forward, c.links[i], value);
      if nonce.Err? {
        return Err(NonceSize), made;
      }
      AdOfKind(blank, value, i);
      made := made + [Made(i, Sealing(c.keys[i], nonce.value, body, CellAd(blank, value, i)))];
      body := c.aead.seal(c.keys[i], nonce.value, body, CellAd(blank, value, i));
    }
    NestFits(c, Forward, counter, framed.value, 0);
    return Ok(NewCell(Header(Data, c.links[0], counter), body)), made;
  }

  // --------------------------------------------- stripping every layer at once

  /** Opens layers i to the exit. */
  function Strip(c: Circuit, dir: Direction, first: Counter, body: Bytes, i: nat): (r: Option<Bytes>)
    requires c.Shaped() && i <= c.Hops() && c.aead.nonceSize >= 16 && Lengths(c.aead)
    requires |body| == LayerLen(i, c.aead.overhead)
    decreases c.Hops() - i
  {
    if i == c.Hops() then Some(body)
    else
      var v := ValueAt(c, i, dir, first);
      match c.aead.open(c.keys[i], LayerNonce(c, i, dir, v), body, DataAd(v, i))
      case None => None
      case Some(p) =>
        assert LayerLen(i + 1, c.aead.overhead) == LayerLen(i, c.aead.overhead) - c.aead.overhead;
        Strip(c, dir, first, p, i + 1)
  }

  lemma {:induction false} StripNest(c: Circuit, dir: Direction, first: Counter, inner: Bytes, i: nat)
    requires c.Shaped() && i <= c.Hops() && c.aead.nonceSize >= 16 && Sound(c.aead)
    requires |inner| == LayerLen(c.Hops(), c.aead.overhead)
    ensures |Nest(c, dir, first, inner, i)| == LayerLen(i, c.aead.overhead)
    ensures Strip(c, dir, first, Nest(c, dir, first, inner, i), i) == Some(inner)
    decreases c.Hops() - i
  {
    NestFits(c, dir, first, inner, i);
    if i < c.Hops() {
      StripNest(c, dir, first, inner, i + 1);
    }
  }

  /** What OpenExit returns: the client's end of the return path. */
  function Opened(c: Circuit, cell: Cell, dir: Direction): (r: Result<Message, WireError>)
    requires c.Shaped() && Lengths(c.aead)
  {
    match HeaderOf(cell)
    case None => Err(BadHeader)
    case Some(h) =>
      if h.counter >= COUNTER_LIMIT then Err(Exhausted)
      else if c.Hops() == 0 then Unframe(BodyOf(cell))
      else if c.aead.nonceSize < 16 then Err(NonceSize)
      else match StripCell(c, cell, h, dir, 0, BodyOf(cell))
        case None => Err(NotOpened)
        case Some(inner) => Unframe(inner)
  }

  /** Strip with the associated data taken from the cell's own first two bytes. */
  function StripCell(c: Circuit, cell: Cell, h: Header, dir: Direction, i: nat, body: Bytes): (r: Option<Bytes>)
    requires c.Shaped() && i <= c.Hops() && c.aead.nonceSize >= 16 && Lengths(c.aead)
    requires h.counter < COUNTER_LIMIT && |body| == LayerLen(i, c.aead.overhead)
    decreases c.Hops() - i
  {
    if i == c.Hops() then Some(body)
    else
      var v := ValueAt(c, i, dir, h.counter);
      match c.aead.open(c.keys[i], LayerNonce(c, i, dir, v), body, CellAd(cell, v, i))
      case None => None
      case Some(p) =>
        assert LayerLen(i + 1, c.aead.overhead) == LayerLen(i, c.aead.overhead) - c.aead.overhead;
        StripCell(c, cell, h, dir, i + 1, p)
  }

  lemma {:induction false} StripCellIsStrip(c: Circuit, cell: Cell, h: Header, dir: Direction, i: nat, body: Bytes)
    requires c.Shaped() && i <= c.Hops() && c.aead.nonceSize >= 16 && Lengths(c.aead)
    requires HeaderOf(cell) == Some(h) && h.kind.Data? && h.counter < COUNTER_LIMIT
    requires |body| == LayerLen(i, c.aead.overhead)
    ensures StripCell(c, cell, h, dir, i, body) == Strip(c, dir, h.counter, body, i)
    decreases c.Hops() - i
  {
    if i < c.Hops() {
      var v := ValueAt(c, i, dir, h.counter);
      AdOfKind(cell, v, i);
      var p := c.aead.open(c.keys[i], LayerNonce(c, i, dir, v), body, DataAd(v, i));
      if p.Some? {
        assert LayerLen(i + 1, c.aead.overhead) == LayerLen(i, c.aead.overhead) - c.aead.overhead;
        StripCellIsStrip(c, cell, h, dir, i + 1, p.value);
      }
    }
  }

  method OpenExit(c: Circuit, cell: Cell, dir: Direction) returns (r: Result<Message, WireError>)
    requires c.Shaped() && Lengths(c.aead)
    ensures r == Opened(c, cell, dir)
  {
    var header := HeaderOf(cell);
    if header.None? {
      return Err(BadHeader);
    }
    var h := header.value;
    if h.counter >= COUNTER_LIMIT {
      return Err(Exhausted);
    }
    var body: Bytes := BodyOf(cell);
    for i := 0 to c.Hops()
      invariant |body| == LayerLen(i, c.aead.overhead)
      invariant if i > 0 then c.aead.nonceSize >= 16 else body == BodyOf(cell)
      invariant c.aead.nonceSize >= 16 ==>
                  StripCell(c, cell, h, dir, i, body) == StripCell(c, cell, h, dir, 0, BodyOf(cell))
    {
      var value := ValueAt(c, i, dir, h.counter);
      var nonce := NonceFor(c.aead.nonceSize, dir, c.links[i], value);
      if nonce.Err? {
        return Err(NonceSize);
      }
      var plain := c.aead.open(c.keys[i], nonce.value, body[..LayerLen(i, c.aead.overhead)], CellAd(cell, value, i));
      assert body[..LayerLen(i, c.aead.overhead)] == body;
      if plain.None? {
        return Err(NotOpened);
      }
      assert LayerLen(i + 1, c.aead.overhead) == LayerLen(i, c.aead.overhead) - c.aead.overhead;
      body := plain.value;
    }
    return Unframe(body);
  }

  // ------------------------------------------------------------ a relay's hop

  /** One key, one layer, and the offsets this hop adds. */
  datatype Hop = Hop(aead: Aead, key: Key, index: nat, offset: Offsets)
  {
    /** What NewHop leaves true. */
    predicate Valid() {
      index < MAX_HOPS && LayerLen(index, aead.overhead) > aead.overhead
    }
  }

  function NewHop(a: Aead, key: Key, off: Offsets, index: int): (r: Result<Hop, WireError>)
    ensures r.Ok? <==> 0 <= index < MAX_HOPS && LayerLen(index, a.overhead) > a.overhead
    ensures r.Ok? ==> r.value.Valid()
  {
    if index < 0 || index >= MAX_HOPS then Err(HopIndex)
    else if LayerLen(index, a.overhead) <= a.overhead then Err(NoRoom)
    else Ok(Hop(a, key, index, off))
  }

  /** Opens this hop's layer; the tail of the body is refilled from fill. */
  function Peel(hop: Hop, cell: Cell, fill: Body): (r: Result<Cell, WireError>)
    requires hop.Valid() && Lengths(hop.aead)
  {
    match HeaderOf(cell)
    case None => Err(BadHeader)
    case Some(hdr) =>
      match NonceFor(hop.aead.nonceSize, Forward, hdr.circuit, hdr.counter)
      case Err(e) => Err(if e.CounterExhausted? then Exhausted else NonceSize)
      case Ok(nonce) =>
        match hop.aead.open(hop.key, nonce, BodyOf(cell)[..LayerLen(hop.index, hop.aead.overhead)],
                            CellAd(cell, hdr.counter, hop.index))
        case None => Err(NotOpened)
        case Some(inner) =>
          Ok(NewCell(hdr.(counter := Shift(hdr.counter, hop.offset.forward)), Overlay(inner, fill)))
  }

  /** The exit reads the message; the refill at the tail is not plaintext. */
  function OpenLast(hop: Hop, cell: Cell, fill: Body): (r: Result<Message, WireError>)
    requires hop.Valid() && Lengths(hop.aead)
  {
    match Peel(hop, cell, fill)
    case Err(e) => Err(e)
    case Ok(peeled) => Unframe(BodyOf(peeled))
  }

  /** A whole cell from one sealed layer: the header names where the cell goes, the fill makes up the size. */
  function HopSeal(hop: Hop, hdr: Header, inner: Bytes, fill: Body): (r: Result<Cell, WireError>)
    requires hop.Valid() && Lengths(hop.aead) && hdr.kind.Data?
    requires |inner| == LayerLen(hop.index + 1, hop.aead.overhead)
  {
    match NonceFor(hop.aead.nonceSize, Backward, hdr.circuit, hdr.counter)
    case Err(e) => Err(if e.CounterExhausted? then Exhausted else NonceSize)
    case Ok(nonce) =>
      var sealed := hop.aead.seal(hop.key, nonce, inner, DataAd(hdr.counter, hop.index));
      assert |sealed| == LayerLen(hop.index, hop.aead.overhead);
      Ok(NewCell(hdr, Overlay(sealed, fill)))
  }

  /** The exit's first backward layer; pad fills the frame and fill the rest of the cell. */
  function SealReply(hop: Hop, inbound: Uint64, number: Uint64, m: Message, pad: Bytes, fill: Body)
    : (r: Result<Cell, WireError>)
    requires hop.Valid() && Lengths(hop.aead)
    requires |pad| == LayerLen(hop.index + 1, hop.aead.overhead)
  {
    if number >= CELL_LIMIT then Err(Exhausted)
    else match Frame(m, pad)
      case Err(e) => Err(e)
      case Ok(inner) =>
        HopSeal(hop, Header(Data, inbound, Shift(number, hop.offset.backward)), inner, fill)
  }

  /** A reply on its way through this hop: the layer it came with becomes the plaintext of the next. */
  function Wrap(hop: Hop, cell: Cell, inbound: Uint64, fill: Body): (r: Result<Cell, WireError>)
    requires hop.Valid() && Lengths(hop.aead)
  {
    match HeaderOf(cell)
    case None => Err(BadHeader)
    case Some(hdr) =>
      if !hdr.kind.Data? then Err(BadKind)
      else if hdr.counter >= COUNTER_LIMIT then Err(Exhausted)
      else
        assert LayerLen(hop.index + 1, hop.aead.overhead) == LayerLen(hop.index, hop.aead.overhead) - hop.aead.overhead;
        HopSeal(hop, Header(Data, inbound, Shift(hdr.counter, hop.offset.backward)),
                BodyOf(cell)[..LayerLen(hop.index + 1, hop.aead.overhead)], fill)
  }

  // ----------------------------------------------------- why a relay refuses

  /** Each error of a relay's own opening, on its own condition. */
  lemma OpeningErrors(hop: Hop, cell: Cell, fill: Body)
    requires hop.Valid() && Lengths(hop.aead)
    ensures var r, h := Peel(hop, cell, fill), HeaderOf(cell);
            && (r == Err(BadHeader) <==> h.None?)
            && (r == Err(Exhausted) <==> h.Some? && h.value.counter >= 0x4000_0000_0000_0000)
            && (r == Err(NonceSize) <==> h.Some? && h.value.counter < 0x4000_0000_0000_0000 && hop.aead.nonceSize < 16)
            && (r.Err? ==> r.error in {BadHeader, Exhausted, NonceSize, NotOpened})
    ensures var r, m := Peel(hop, cell, fill), OpenLast(hop, cell, fill);
            if r.Err? then m == Err(r.error) else m.Err? ==> m == Err(Framing)
  {}

  /** And of sealing: a header it must not use is refused before the key is touched. */
  lemma SealingErrors(hop: Hop, hdr: Header, inner: Bytes, cell: Cell, inbound: Uint64, fill: Body)
    requires hop.Valid() && Lengths(hop.aead) && hdr.kind.Data? && |inner| == LayerLen(hop.index + 1, hop.aead.overhead)
    ensures var r := HopSeal(hop, hdr, inner, fill);
            && (r == Err(Exhausted) <==> hdr.counter >= 0x4000_0000_0000_0000)
            && (r == Err(NonceSize) <==> hdr.counter < 0x4000_0000_0000_0000 && hop.aead.nonceSize < 16)
            && (r.Err? ==> r.error in {Exhausted, NonceSize})
    ensures var r, h := Wrap(hop, cell, inbound, fill), HeaderOf(cell);
            && (r == Err(BadHeader) <==> h.None?)
            && (r == Err(BadKind) <==> h.Some? && h.value.kind != Data)
            && (r == Err(Exhausted) <==> h.Some? && h.value.kind == Data && h.value.counter >= 0x4000_0000_0000_0000)
            && (r.Ok? <==> h.Some? && h.value.kind == Data && h.value.counter < 0x4000_0000_0000_0000 && hop.aead.nonceSize >= 16)
            && (r.Err? ==> r.error in {BadHeader, BadKind, Exhausted, NonceSize})
  {}

  lemma ReplyErrors(hop: Hop, inbound: Uint64, number: Uint64, m: Message, pad: Bytes, fill: Body)
    requires hop.Valid() && Lengths(hop.aead) && |pad| == LayerLen(hop.index + 1, hop.aead.overhead)
    ensures var r, fits := SealReply(hop, inbound, number, m, pad, fill), |m.payload| + 2 <= |pad| && |m.payload| < 0x8000;
            && (r == Err(Exhausted) <==> number >= 0x1000_0000_0000_0000)
            && (r == Err(PayloadSize) <==> number < 0x1000_0000_0000_0000 && !fits)
            && (r == Err(NonceSize) <==> number < 0x1000_0000_0000_0000 && fits && hop.aead.nonceSize < 16)
            && (r.Ok? <==> number < 0x1000_0000_0000_0000 && fits && hop.aead.nonceSize >= 16)
  {}

  // ------------------------------------------- the calls of seal a relay makes

  function HopMade(hop: Hop, hdr: Header, inner: Bytes): seq<Made> {
    match NonceFor(hop.aead.nonceSize, Backward, hdr.circuit, hdr.counter)
    case Err(_) => []
    case Ok(nonce) => [Made(hop.index, Sealing(hop.key, nonce, inner, DataAd(hdr.counter, hop.index)))]
  }

  function ReplyMade(hop: Hop, inbound: Uint64, number: Uint64, m: Message, pad: Bytes): seq<Made> {
    if number >= CELL_LIMIT || Frame(m, pad).Err? then []
    else HopMade(hop, Header(Data, inbound, Shift(number, hop.offset.backward)), Frame(m, pad).value)
  }

  function WrapMade(hop: Hop, cell: Cell, inbound: Uint64): seq<Made>
    requires hop.Valid()
  {
    match HeaderOf(cell)
    case None => []
    case Some(hdr) =>
      if !hdr.kind.Data? || hdr.counter >= COUNTER_LIMIT then []
      else HopMade(hop, Header(Data, inbound, Shift(hdr.counter, hop.offset.backward)),
                   BodyOf(cell)[..LayerLen(hop.index + 1, hop.aead.overhead)])
  }

  /** The ciphertext that one call of seal gave. */
  function Ciphertext(a: Aead, m: Made): Bytes {
    a.seal(m.sealing.key, m.sealing.nonce, m.sealing.plain, m.sealing.ad)
  }

  lemma HopSealGives(hop: Hop, hdr: Header, inner: Bytes, fill: Body)
    requires hop.Valid() && Lengths(hop.aead) && hdr.kind.Data? && |inner| == LayerLen(hop.index + 1, hop.aead.overhead)
    requires HopSeal(hop, hdr, inner, fill).Ok?
    ensures |HopMade(hop, hdr, inner)| == 1
    ensures BodyOf(HopSeal(hop, hdr, inner, fill).value)[..LayerLen(hop.index, hop.aead.overhead)] == Ciphertext(hop.aead, HopMade(hop, hdr, inner)[0])
  {}

  /** Seals one layer; an error comes before the key is used, and what is sealed starts the body. */
  method SealLayer(hop: Hop, hdr: Header, inner: Bytes, fill: Body) returns (r: Result<Cell, WireError>, made: seq<Made>)
    requires hop.Valid() && Lengths(hop.aead) && hdr.kind.Data?
    requires |inner| == LayerLen(hop.index + 1, hop.aead.overhead)
    ensures r == HopSeal(hop, hdr, inner, fill) && made == HopMade(hop, hdr, inner)
    ensures r.Err? ==> made == []
    ensures r.Ok? ==> |made| == 1 && BodyOf(r.value)[..LayerLen(hop.index, hop.aead.overhead)] == Ciphertext(hop.aead, made[0])
  {
    var nonce := NonceFor(hop.aead.nonceSize, Backward, hdr.circuit, hdr.counter);
    if nonce.Err? {
      return Err(if nonce.error.CounterExhausted? then Exhausted else NonceSize), [];
    }
    var ad := DataAd(hdr.counter, hop.index);
    made := [Made(hop.index, Sealing(hop.key, nonce.value, inner, ad))];
    var sealed := hop.aead.seal(hop.key, nonce.value, inner, ad);
    r := Ok(NewCell(hdr, Overlay(sealed, fill)));
  }

  /** The exit's layer: the length is refused before the key is used. */
  method MakeReply(hop: Hop, inbound: Uint64, number: Uint64, m: Message, pad: Bytes, fill: Body)
    returns (r: Result<Cell, WireError>, made: seq<Made>)
    requires hop.Valid() && Lengths(hop.aead) && |pad| == LayerLen(hop.index + 1, hop.aead.overhead)
    ensures r == SealReply(hop, inbound, number, m, pad, fill) && made == ReplyMade(hop, inbound, number, m, pad)
    ensures if r.Err? then made == [] else |made| == 1
  {
    if number >= CELL_LIMIT {
      return Err(Exhausted), [];
    }
    var inner := Frame(m, pad);
    if inner.Err? {
      return Err(inner.error), [];
    }
    r, made := SealLayer(hop, Header(Data, inbound, Shift(number, hop.offset.backward)), inner.value, fill);
  }

  method WrapCell(hop: Hop, cell: Cell, inbound: Uint64, fill: Body) returns (r: Result<Cell, WireError>, made: seq<Made>)
    requires hop.Valid() && Lengths(hop.aead)
    ensures r == Wrap(hop, cell, inbound, fill) && made == WrapMade(hop, cell, inbound)
    ensures if r.Err? then made == [] else |made| == 1
  {
    var hdr := HeaderOf(cell);
    if hdr.None? {
      return Err(BadHeader), [];
    }
    if !hdr.value.kind.Data? {
      return Err(BadKind), [];
    }
    if hdr.value.counter >= COUNTER_LIMIT {
      return Err(Exhausted), [];
    }
    assert LayerLen(hop.index + 1, hop.aead.overhead) == LayerLen(hop.index, hop.aead.overhead) - hop.aead.overhead;
    r, made := SealLayer(hop, Header(Data, inbound, Shift(hdr.value.counter, hop.offset.backward)),
                         BodyOf(cell)[..LayerLen(hop.index + 1, hop.aead.overhead)], fill);
  }
}
