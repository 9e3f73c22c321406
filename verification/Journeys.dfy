/**
 A data cell on its way through a chain of honest hops, out and back. One step
 of each way is a lemma of its own; the whole way is their composition.
 */
module Journeys {
  import opened Results
  import opened ByteStrings
  import opened Counters
  import opened Nonces
  import opened Cells
  import opened Ciphers
  import opened Onion

  /** A client's circuit of hops that fit in a cell, with the offsets it was made from. */
  ghost predicate Chain(c: Circuit, offsets: seq<Offsets>) {
    && BuiltFrom(c, offsets)
    && Sound(c.aead) && c.aead.nonceSize >= 16
    && c.MaxPayload() >= 0
    && c.Hops() <= MAX_HOPS
  }

  /** Hop i of the chain, as its setup gave it to the relay. */
  function HopAt(c: Circuit, offsets: seq<Offsets>, i: nat): Hop
    requires c.Shaped() && i < c.Hops() && |offsets| == c.Hops()
  {
    Hop(c.aead, c.keys[i], i, offsets[i])
  }

  lemma HopFits(c: Circuit, offsets: seq<Offsets>, i: nat)
    requires Chain(c, offsets) && i < c.Hops()
    ensures HopAt(c, offsets, i).Valid()
    ensures LayerLen(i, c.aead.overhead) <= BODY_SIZE
    ensures LayerLen(i + 1, c.aead.overhead) == LayerLen(i, c.aead.overhead) - c.aead.overhead
    ensures LayerLen(c.Hops(), c.aead.overhead) <= LayerLen(i + 1, c.aead.overhead)
  {
    TagsGrow(i + 1, c.Hops(), c.aead.overhead);
  }

  /** A relay builds its hop from what its setup gave it, wherever it stands on the chain. */
  lemma HopBuilt(c: Circuit, offsets: seq<Offsets>, i: nat)
    requires Chain(c, offsets) && i < c.Hops()
    ensures NewHop(c.aead, c.keys[i], offsets[i], i) == Ok(HopAt(c, offsets, i))
  {
    HopFits(c, offsets, i);
  }

  lemma HopsFit(c: Circuit, offsets: seq<Offsets>)
    requires Chain(c, offsets)
    ensures forall j :: 0 <= j < c.Hops() ==> HopAt(c, offsets, j).Valid()
  {
    forall j | 0 <= j < c.Hops() ensures HopAt(c, offsets, j).Valid() {
      HopFits(c, offsets, j);
    }
  }

  lemma FrameFits(c: Circuit, offsets: seq<Offsets>, m: Message, fill: Bytes)
    requires Chain(c, offsets) && |m.payload| <= c.MaxPayload()
    requires |fill| == LayerLen(c.Hops(), c.aead.overhead)
    ensures Frame(m, fill).Ok? && |fill| <= BODY_SIZE
  {}

  /** The cell of this counter as it stands on the link into hop i. */
  ghost predicate OnTheWay(c: Circuit, dir: Direction, first: Counter, inner: Bytes, i: nat, cell: Cell)
    requires c.Shaped() && i < c.Hops() && c.aead.nonceSize >= 16
  {
    && HeaderOf(cell) == Some(Header(Data, c.links[i], ValueAt(c, i, dir, first)))
    && var layer := Nest(c, dir, first, inner, i);
       |layer| <= BODY_SIZE && BodyOf(cell)[..|layer|] == layer
  }

  // -------------------------------------------------------------- outwards

  lemma SealedSetsOut(c: Circuit, offsets: seq<Offsets>, counter: Uint64, m: Message, fill: Bytes)
    requires Chain(c, offsets) && CanSeal(c, counter, m)
    requires |fill| == LayerLen(c.Hops(), c.aead.overhead)
    ensures OnTheWay(c, Forward, counter, Frame(m, fill).value, 0, SealedCell(c, counter, m, fill).value)
  {
    var inner := Frame(m, fill).value;
    var body := Nest(c, Forward, counter, inner, 0);
    NestFits(c, Forward, counter, inner, 0);
    assert Sum(offsets[..0], Forward) == 0;
    assert ValueAt(c, 0, Forward, counter) == counter;
    HeaderRoundTrip(Header(Data, c.links[0], counter), body);
    assert body[..|body|] == body;
  }

  /** What hop i reads under its layer, with its refill behind it. */
  lemma PeelReads(c: Circuit, offsets: seq<Offsets>, first: Counter, inner: Bytes, i: nat, cell: Cell, fill: Body)
    requires Chain(c, offsets) && i < c.Hops() && |inner| == LayerLen(c.Hops(), c.aead.overhead)
    requires OnTheWay(c, Forward, first, inner, i, cell)
    ensures HopAt(c, offsets, i).Valid() && |Nest(c, Forward, first, inner, i + 1)| <= BODY_SIZE
    ensures Peel(HopAt(c, offsets, i), cell, fill)
         == Ok(NewCell(Header(Data, c.links[i], Shift(ValueAt(c, i, Forward, first), offsets[i].forward)),
                       Overlay(Nest(c, Forward, first, inner, i + 1), fill)))
  {
    HopFits(c, offsets, i);
    NestFits(c, Forward, first, inner, i);
    NestFits(c, Forward, first, inner, i + 1);
    AdOfKind(cell, ValueAt(c, i, Forward, first), i);
  }

  /** An honest hop passes the cell on: peeled, shifted and relabelled it is the cell of the next link. */
  lemma PeelPassesOn(c: Circuit, offsets: seq<Offsets>, first: Counter, inner: Bytes, i: nat, cell: Cell, fill: Body)
    requires Chain(c, offsets) && i + 1 < c.Hops() && |inner| == LayerLen(c.Hops(), c.aead.overhead)
    requires OnTheWay(c, Forward, first, inner, i, cell)
    ensures HopAt(c, offsets, i).Valid()
    ensures Peel(HopAt(c, offsets, i), cell, fill).Ok?
    ensures OnTheWay(c, Forward, first, inner, i + 1,
                     SetCircuit(Peel(HopAt(c, offsets, i), cell, fill).value, c.links[i + 1]))
  {
    PeelReads(c, offsets, first, inner, i, cell, fill);
    var out := Peel(HopAt(c, offsets, i), cell, fill).value;
    var v := ValueAt(c, i, Forward, first);
    var layer := Nest(c, Forward, first, inner, i + 1);
    HeaderRoundTrip(Header(Data, c.links[i], Shift(v, offsets[i].forward)), Overlay(layer, fill));
    Relabelled(out, c.links[i + 1]);
    SumSnoc(offsets, i, Forward);
    ShiftAssociates(first, Sum(offsets[..i], Forward), offsets[i].forward);
  }

  lemma ExitReads(c: Circuit, offsets: seq<Offsets>, first: Counter, m: Message, pad: Bytes, cell: Cell, fill: Body)
    requires Chain(c, offsets) && |pad| == LayerLen(c.Hops(), c.aead.overhead)
    requires Frame(m, pad).Ok? && (m.cover ==> m.payload == [])
    requires OnTheWay(c, Forward, first, Frame(m, pad).value, c.Hops() - 1, cell)
    ensures HopAt(c, offsets, c.Hops() - 1).Valid()
    ensures OpenLast(HopAt(c, offsets, c.Hops() - 1), cell, fill) == Ok(m)
  {
    var inner, i := Frame(m, pad).value, c.Hops() - 1;
    PeelReads(c, offsets, first, inner, i, cell, fill);
    UnframeFramed(m, pad, Overlay(inner, fill));
  }

  /** The cell that reaches hop i when every hop before it peels and relabels. */
  function Arriving(c: Circuit, offsets: seq<Offsets>, cell: Cell, fills: seq<Body>, i: nat): Result<Cell, WireError>
    requires c.Shaped() && i < c.Hops() == |offsets| && |fills| == c.Hops() && Lengths(c.aead)
    requires forall j :: 0 <= j < c.Hops() ==> HopAt(c, offsets, j).Valid()
  {
    if i == 0 then Ok(cell)
    else match Arriving(c, offsets, cell, fills, i - 1)
      case Err(e) => Err(e)
      case Ok(x) => match Peel(HopAt(c, offsets, i - 1), x, fills[i - 1])
        case Err(e) => Err(e)
        case Ok(y) => Ok(SetCircuit(y, c.links[i]))
  }

  lemma {:induction false} ArrivesOnTheWay(c: Circuit, offsets: seq<Offsets>, first: Counter, inner: Bytes,
                                           cell: Cell, fills: seq<Body>, i: nat)
    requires Chain(c, offsets) && i < c.Hops() == |fills| && |inner| == LayerLen(c.Hops(), c.aead.overhead)
    requires forall j :: 0 <= j < c.Hops() ==> HopAt(c, offsets, j).Valid()
    requires OnTheWay(c, Forward, first, inner, 0, cell)
    ensures Arriving(c, offsets, cell, fills, i).Ok?
    ensures OnTheWay(c, Forward, first, inner, i, Arriving(c, offsets, cell, fills, i).value)
  {
    if i > 0 {
      ArrivesOnTheWay(c, offsets, first, inner, cell, fills, i - 1);
      PeelPassesOn(c, offsets, first, inner, i - 1, Arriving(c, offsets, cell, fills, i - 1).value, fills[i - 1]);
    }
  }

  /**
   For every chain, offsets, links, counter and message, and whatever bytes the
   hops refill with: what the client seals is what the exit reads.
   */
  lemma ForwardRoundTrip(c: Circuit, offsets: seq<Offsets>, counter: Uint64, m: Message, fill: Bytes, fills: seq<Body>)
    requires Chain(c, offsets) && counter < CELL_LIMIT && |m.payload| <= c.MaxPayload()
    requires m.cover ==> m.payload == []
    requires |fill| == LayerLen(c.Hops(), c.aead.overhead) && |fills| == c.Hops()
    ensures forall j :: 0 <= j < c.Hops() ==> HopAt(c, offsets, j).Valid()
    ensures SealedCell(c, counter, m, fill).Ok?
    ensures var sealed := SealedCell(c, counter, m, fill).value;
            var last := Arriving(c, offsets, sealed, fills, c.Hops() - 1);
            last.Ok? && OpenLast(HopAt(c, offsets, c.Hops() - 1), last.value, fills[c.Hops() - 1]) == Ok(m)
  {
    HopsFit(c, offsets);
    FrameFits(c, offsets, m, fill);
    var inner := Frame(m, fill).value;
    SealedSetsOut(c, offsets, counter, m, fill);
    var cell := SealedCell(c, counter, m, fill).value;
    ArrivesOnTheWay(c, offsets, counter, inner, cell, fills, c.Hops() - 1);
    var last := Arriving(c, offsets, cell, fills, c.Hops() - 1).value;
    ExitReads(c, offsets, counter, m, fill, last, fills[c.Hops() - 1]);
  }

  // ---------------------------------------------------------------- and back

  /** The counter of a reply on the link into hop i: every hop it leaves adds its offset. */
  function BackValue(offsets: seq<Offsets>, number: Counter, i: nat): Counter
    requires i <= |offsets|
    decreases |offsets| - i
  {
    if i == |offsets| then number else Shift(BackValue(offsets, number, i + 1), offsets[i].backward)
  }

  /** The counter a reply of this number has at the client. */
  function AtClient(c: Circuit, number: Counter): Counter {
    Shift(number, c.total.backward)
  }

  /** The client's subtraction finds at every layer the value the relay there sealed under. */
  lemma {:induction false} ValueAtIsBackValue(c: Circuit, offsets: seq<Offsets>, number: Counter, i: nat)
    requires BuiltFrom(c, offsets) && i < c.Hops()
    ensures ValueAt(c, i, Backward, AtClient(c, number)) == BackValue(offsets, number, i)
    decreases c.Hops() - i
  {
    var f := AtClient(c, number);
    var s := Sum(offsets[..i], Backward);
    SumSnoc(offsets, i, Backward);
    UnshiftAssociates(f, s, offsets[i].backward);
    UnshiftShift(Unshift(f, s), offsets[i].backward);
    if i + 1 == c.Hops() {
      assert offsets[..i + 1] == offsets;
      UnshiftShift(number, c.total.backward);
    } else {
      ValueAtIsBackValue(c, offsets, number, i + 1);
    }
  }

  /** The client recovers the exit's own number from the counter it reads, across the wrap. */
  lemma ReplyNumberRecovers(c: Circuit, offsets: seq<Offsets>, number: Counter)
    requires BuiltFrom(c, offsets)
    ensures ReplyNumber(c, AtClient(c, number)) == number
    ensures BackValue(offsets, number, 0) == AtClient(c, number)
  {
    UnshiftShift(number, c.total.backward);
    ValueAtIsBackValue(c, offsets, number, 0);
    assert Sum(offsets[..0], Backward) == 0;
  }

  /** What HopSeal makes, as a header and the start of a body. */
  lemma HopSealIs(hop: Hop, hdr: Header, inner: Bytes, fill: Body, layer: Bytes)
    requires hop.Valid() && Lengths(hop.aead) && hdr.kind.Data? && |inner| == LayerLen(hop.index + 1, hop.aead.overhead)
    requires NonceFor(hop.aead.nonceSize, Backward, hdr.circuit, hdr.counter).Ok?
    requires layer == hop.aead.seal(hop.key, NonceFor(hop.aead.nonceSize, Backward, hdr.circuit, hdr.counter).value,
                                    inner, DataAd(hdr.counter, hop.index))
    ensures var sealed := HopSeal(hop, hdr, inner, fill);
            && sealed.Ok? && HeaderOf(sealed.value) == Some(hdr)
            && |layer| <= BODY_SIZE && BodyOf(sealed.value)[..|layer|] == layer
  {
    assert |layer| == LayerLen(hop.index, hop.aead.overhead);
    HeaderRoundTrip(hdr, Overlay(layer, fill));
  }

  /** One sealed layer is the cell of the link it leaves on. */
  lemma SealedLayer(c: Circuit, offsets: seq<Offsets>, number: Counter, inner: Bytes, i: nat, fill: Body)
    requires Chain(c, offsets) && i < c.Hops() && |inner| == LayerLen(c.Hops(), c.aead.overhead)
    ensures HopAt(c, offsets, i).Valid()
    ensures |Nest(c, Backward, AtClient(c, number), inner, i + 1)| == LayerLen(i + 1, c.aead.overhead)
    ensures var sealed := HopSeal(HopAt(c, offsets, i), Header(Data, c.links[i], BackValue(offsets, number, i)),
                                  Nest(c, Backward, AtClient(c, number), inner, i + 1), fill);
            sealed.Ok? && OnTheWay(c, Backward, AtClient(c, number), inner, i, sealed.value)
  {
    var f := AtClient(c, number);
    HopFits(c, offsets, i);
    NestFits(c, Backward, f, inner, i);
    NestFits(c, Backward, f, inner, i + 1);
    ValueAtIsBackValue(c, offsets, number, i);
    var hop, hdr := HopAt(c, offsets, i), Header(Data, c.links[i], BackValue(offsets, number, i));
    HopSealIs(hop, hdr, Nest(c, Backward, f, inner, i + 1), fill, Nest(c, Backward, f, inner, i));
  }

  lemma ExitAnswers(c: Circuit, offsets: seq<Offsets>, number: Counter, m: Message, pad: Bytes, fill: Body)
    requires Chain(c, offsets) && number < CELL_LIMIT && |m.payload| <= c.MaxPayload()
    requires |pad| == LayerLen(c.Hops(), c.aead.overhead)
    ensures HopAt(c, offsets, c.Hops() - 1).Valid() && Frame(m, pad).Ok?
    ensures var sealed := SealReply(HopAt(c, offsets, c.Hops() - 1), c.links[c.Hops() - 1], number, m, pad, fill);
            sealed.Ok? && OnTheWay(c, Backward, AtClient(c, number), Frame(m, pad).value, c.Hops() - 1, sealed.value)
  {
    var i := c.Hops() - 1;
    SealedLayer(c, offsets, number, Frame(m, pad).value, i, fill);
    assert BackValue(offsets, number, i) == Shift(number, offsets[i].backward);
  }

  lemma WrapPassesOn(c: Circuit, offsets: seq<Offsets>, number: Counter, inner: Bytes, i: nat, cell: Cell, fill: Body)
    requires Chain(c, offsets) && i + 1 < c.Hops() && |inner| == LayerLen(c.Hops(), c.aead.overhead)
    requires OnTheWay(c, Backward, AtClient(c, number), inner, i + 1, cell)
    ensures HopAt(c, offsets, i).Valid()
    ensures Wrap(HopAt(c, offsets, i), cell, c.links[i], fill).Ok?
    ensures OnTheWay(c, Backward, AtClient(c, number), inner, i,
                     Wrap(HopAt(c, offsets, i), cell, c.links[i], fill).value)
  {
    SealedLayer(c, offsets, number, inner, i, fill);
    ValueAtIsBackValue(c, offsets, number, i + 1);
  }

  lemma ClientReads(c: Circuit, offsets: seq<Offsets>, number: Counter, m: Message, pad: Bytes, cell: Cell)
    requires Chain(c, offsets) && |pad| == LayerLen(c.Hops(), c.aead.overhead)
    requires Frame(m, pad).Ok? && (m.cover ==> m.payload == [])
    requires OnTheWay(c, Backward, AtClient(c, number), Frame(m, pad).value, 0, cell)
    ensures HeaderOf(cell) == Some(Header(Data, c.links[0], AtClient(c, number)))
    ensures Opened(c, cell, Backward) == Ok(m)
  {
    var inner, f := Frame(m, pad).value, AtClient(c, number);
    ReplyNumberRecovers(c, offsets, number);
    ValueAtIsBackValue(c, offsets, number, 0);
    StripNest(c, Backward, f, inner, 0);
    var body := BodyOf(cell);
    assert body == body[..|body|] == Nest(c, Backward, f, inner, 0);
    StripCellIsStrip(c, cell, HeaderOf(cell).value, Backward, 0, body);
    assert inner[..|inner|] == inner;
    UnframeFramed(m, pad, inner);
  }

  /** The reply as it leaves hop i towards the client. */
  function Returning(c: Circuit, offsets: seq<Offsets>, number: Counter, m: Message, pad: Bytes, fills: seq<Body>, i: nat)
    : Result<Cell, WireError>
    requires c.Shaped() && i < c.Hops() == |offsets| && |fills| == c.Hops() && Lengths(c.aead)
    requires |pad| == LayerLen(c.Hops(), c.aead.overhead)
    requires forall j :: 0 <= j < c.Hops() ==> HopAt(c, offsets, j).Valid()
    decreases c.Hops() - i
  {
    if i == c.Hops() - 1 then SealReply(HopAt(c, offsets, i), c.links[i], number, m, pad, fills[i])
    else match Returning(c, offsets, number, m, pad, fills, i + 1)
      case Err(e) => Err(e)
      case Ok(x) => Wrap(HopAt(c, offsets, i), x, c.links[i], fills[i])
  }

  /** Hop i has answered or passed the answer on, and it is on its way. */
  ghost predicate Returned(c: Circuit, offsets: seq<Offsets>, number: Counter, m: Message, pad: Bytes, fills: seq<Body>, i: nat)
    requires Chain(c, offsets) && i < c.Hops() == |fills| && |pad| == LayerLen(c.Hops(), c.aead.overhead)
    requires forall j :: 0 <= j < c.Hops() ==> HopAt(c, offsets, j).Valid()
  {
    var x := Returning(c, offsets, number, m, pad, fills, i);
    Frame(m, pad).Ok? && x.Ok? && OnTheWay(c, Backward, AtClient(c, number), Frame(m, pad).value, i, x.value)
  }

  lemma ReturnedOn(c: Circuit, offsets: seq<Offsets>, number: Counter, m: Message, pad: Bytes, fills: seq<Body>, i: nat)
    requires Chain(c, offsets) && i + 1 < c.Hops() == |fills| && |pad| == LayerLen(c.Hops(), c.aead.overhead)
    requires forall j :: 0 <= j < c.Hops() ==> HopAt(c, offsets, j).Valid()
    requires Returned(c, offsets, number, m, pad, fills, i + 1)
    ensures Returned(c, offsets, number, m, pad, fills, i)
  {
    var x := Returning(c, offsets, number, m, pad, fills, i + 1).value;
    WrapPassesOn(c, offsets, number, Frame(m, pad).value, i, x, fills[i]);
  }

  lemma {:induction false} ReturnsOnTheWay(c: Circuit, offsets: seq<Offsets>, number: Counter, m: Message,
                                           pad: Bytes, fills: seq<Body>, i: nat)
    requires Chain(c, offsets) && i < c.Hops() == |fills| && |pad| == LayerLen(c.Hops(), c.aead.overhead)
    requires number < CELL_LIMIT && |m.payload| <= c.MaxPayload()
    requires forall j :: 0 <= j < c.Hops() ==> HopAt(c, offsets, j).Valid()
    ensures Returned(c, offsets, number, m, pad, fills, i)
    decreases c.Hops() - i
  {
    if i == c.Hops() - 1 {
      ExitAnswers(c, offsets, number, m, pad, fills[i]);
    } else {
      ReturnsOnTheWay(c, offsets, number, m, pad, fills, i + 1);
      ReturnedOn(c, offsets, number, m, pad, fills, i);
    }
  }

  /**
   For every chain, a reply sealed by the exit and wrapped by every hop opens at
   the client to what the exit sealed, under the exit's own number.
   */
  lemma BackwardRoundTrip(c: Circuit, offsets: seq<Offsets>, number: Counter, m: Message, pad: Bytes, fills: seq<Body>)
    requires Chain(c, offsets) && number < CELL_LIMIT && |m.payload| <= c.MaxPayload()
    requires m.cover ==> m.payload == []
    requires |pad| == LayerLen(c.Hops(), c.aead.overhead) && |fills| == c.Hops()
    ensures forall j :: 0 <= j < c.Hops() ==> HopAt(c, offsets, j).Valid()
    ensures var back := Returning(c, offsets, number, m, pad, fills, 0);
            back.Ok? && Opened(c, back.value, Backward) == Ok(m)
            && HeaderOf(back.value).Some?
            && HeaderOf(back.value).value.circuit == c.links[0]
            && ReplyNumber(c, HeaderOf(back.value).value.counter) == number
  {
    HopsFit(c, offsets);
    ReturnsOnTheWay(c, offsets, number, m, pad, fills, 0);
    var cell := Returning(c, offsets, number, m, pad, fills, 0).value;
    ClientReads(c, offsets, number, m, pad, cell);
    ReplyNumberRecovers(c, offsets, number);
  }
}
