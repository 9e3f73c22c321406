/** One circuit at a relay: what arrives on its two links (relay/relay.go). */
module RelayCircuits {
  import opened Results
  import opened ByteStrings
  import opened Counters
  import opened Nonces
  import opened Cells
  import opened Ciphers
  import opened Onion
  import opened Replay

  /** What changes while the circuit lives. */
  datatype Flow = Flow(fwd: Turn, bwd: Turn, replies: nat, alive: bool)

  /** What became of one cell. */
  datatype Outcome =
    | Dropped
    | Broken
    | Passed(cell: Cell)
    | Answered(message: Message, answer: Message, cell: Cell)

  /** A data cell of this circuit, as route looks it up. */
  predicate ForCircuit(cell: Cell, inbound: Uint64) {
    var h := HeaderOf(cell);
    h.Some? && h.value.kind.Data? && h.value.circuit == inbound
  }

  /** route at a middle relay: opening decides whether a cell counts, the turn decides whether it passes. */
  function Route(hop: Hop, inbound: Uint64, nextId: Uint64, f: Flow, cell: Cell, fill: Body): (r: (Flow, Outcome))
    requires hop.Valid() && Lengths(hop.aead)
  {
    if !f.alive || !ForCircuit(cell, inbound) then (f, Dropped)
    else
      var counter := HeaderOf(cell).value.counter;
      match Peel(hop, cell, fill)
      case Err(_) => (f, Dropped)
      case Ok(out) =>
        if !Due(f.fwd, counter) then (f.(alive := false), Broken)
        else (f.(fwd := Take(f.fwd, counter)), Passed(SetCircuit(out, nextId)))
  }

  /** The message a reply carries: an answer that does not fit leaves as cover under its number. */
  function Answering(hop: Hop, m: Message, answer: Option<Bytes>, pad: Bytes): Message {
    if !m.cover && answer.Some? && Frame(Message(answer.value, false), pad).Ok? then Message(answer.value, false)
    else Message([], true)
  }

  /** route at the exit, and the reply it makes to every cell it delivers. */
  function RouteExit(hop: Hop, inbound: Uint64, f: Flow, cell: Cell, fill: Body,
                     answer: Option<Bytes>, pad: Bytes, refill: Body): (r: (Flow, Outcome))
    requires hop.Valid() && Lengths(hop.aead)
    requires |pad| == LayerLen(hop.index + 1, hop.aead.overhead)
  {
    if !f.alive || !ForCircuit(cell, inbound) then (f, Dropped)
    else
      var counter := HeaderOf(cell).value.counter;
      match OpenLast(hop, cell, fill)
      case Err(_) => (f, Dropped)
      case Ok(m) =>
        if !Due(f.fwd, counter) then (f.(alive := false), Broken)
        else
          var f' := f.(fwd := Take(f.fwd, counter), replies := f.replies + 1);
          if f.replies >= TWO64 then (f'.(alive := false), Broken)
          else
            var reply := Answering(hop, m, answer, pad);
            match SealReply(hop, inbound, f.replies, reply, pad, refill)
            case Err(_) => (f'.(alive := false), Broken)
            case Ok(out) => (f', Answered(m, reply, out))
  }

  /** Every call of seal that one reply makes: a refused first attempt counts as well as the cover after it. */
  function AnswerMade(hop: Hop, inbound: Uint64, number: Uint64, m: Message, answer: Option<Bytes>, pad: Bytes): seq<Made> {
    var cover := ReplyMade(hop, inbound, number, Message([], true), pad);
    if m.cover || answer.None? then cover
    else
      var full := Message(answer.value, false);
      var first := ReplyMade(hop, inbound, number, full, pad);
      if number < CELL_LIMIT && Frame(full, pad) == Err(PayloadSize) then first + cover else first
  }

  /** Every call of seal the exit makes over one cell. */
  function ExitMade(hop: Hop, inbound: Uint64, f: Flow, cell: Cell, fill: Body, answer: Option<Bytes>, pad: Bytes): seq<Made>
    requires hop.Valid() && Lengths(hop.aead)
  {
    if !f.alive || !ForCircuit(cell, inbound) || OpenLast(hop, cell, fill).Err? || !Due(f.fwd, HeaderOf(cell).value.counter)
       || f.replies >= TWO64 then []
    else AnswerMade(hop, inbound, f.replies, OpenLast(hop, cell, fill).value, answer, pad)
  }

  /** An answer that leaves was sealed by one call of seal, and one that does not leave by none. */
  lemma AnsweredByOne(hop: Hop, inbound: Uint64, f: Flow, cell: Cell, fill: Body, answer: Option<Bytes>, pad: Bytes, refill: Body)
    requires hop.Valid() && Lengths(hop.aead) && |pad| == LayerLen(hop.index + 1, hop.aead.overhead)
    ensures var (o, made) := (RouteExit(hop, inbound, f, cell, fill, answer, pad, refill).1, ExitMade(hop, inbound, f, cell, fill, answer, pad));
            if o.Answered? then
              && f.replies < CELL_LIMIT && Frame(o.answer, pad).Ok?
              && made == HopMade(hop, Header(Data, inbound, Shift(f.replies, hop.offset.backward)), Frame(o.answer, pad).value)
              && |made| == 1
            else made == []
  {}

  /** backward: the header is all a relay can check of what comes back. */
  function Return(hop: Hop, inbound: Uint64, f: Flow, cell: Cell, fill: Body): (r: (Flow, Outcome))
    requires hop.Valid() && Lengths(hop.aead)
  {
    if !f.alive then (f, Dropped)
    else
      var h := HeaderOf(cell);
      if h.None? || !h.value.kind.Data? || !Due(f.bwd, h.value.counter) then (f.(alive := false), Broken)
      else
        var f' := f.(bwd := Take(f.bwd, h.value.counter));
        match Wrap(hop, cell, inbound, fill)
        case Err(_) => (f'.(alive := false), Broken)
        case Ok(out) => (f', Passed(out))
  }

  /** The cell an exit answers with starts with what its one call of seal gave. */
  lemma AnswerIsSealed(hop: Hop, inbound: Uint64, f: Flow, cell: Cell, fill: Body, answer: Option<Bytes>, pad: Bytes, refill: Body)
    requires hop.Valid() && Lengths(hop.aead) && |pad| == LayerLen(hop.index + 1, hop.aead.overhead)
    requires RouteExit(hop, inbound, f, cell, fill, answer, pad, refill).1.Answered?
    ensures var out, made := RouteExit(hop, inbound, f, cell, fill, answer, pad, refill).1.cell, ExitMade(hop, inbound, f, cell, fill, answer, pad);
            |made| == 1 && BodyOf(out)[..LayerLen(hop.index, hop.aead.overhead)] == Ciphertext(hop.aead, made[0])
  {
    AnsweredByOne(hop, inbound, f, cell, fill, answer, pad, refill);
    HopSealGives(hop, Header(Data, inbound, Shift(f.replies, hop.offset.backward)),
                 Frame(RouteExit(hop, inbound, f, cell, fill, answer, pad, refill).1.answer, pad).value, refill);
  }

  lemma WrapIsSealed(hop: Hop, inbound: Uint64, f: Flow, cell: Cell, fill: Body)
    requires hop.Valid() && Lengths(hop.aead) && Return(hop, inbound, f, cell, fill).1.Passed?
    ensures var out, made := Return(hop, inbound, f, cell, fill).1.cell, BackMade(hop, inbound, f, cell);
            |made| == 1 && BodyOf(out)[..LayerLen(hop.index, hop.aead.overhead)] == Ciphertext(hop.aead, made[0])
  {
    WrappedByOne(hop, inbound, f, cell, fill);
    var h := HeaderOf(cell).value;
    HopSealGives(hop, Header(Data, inbound, Shift(h.counter, hop.offset.backward)),
                 BodyOf(cell)[..LayerLen(hop.index + 1, hop.aead.overhead)], fill);
  }

  function BackMade(hop: Hop, inbound: Uint64, f: Flow, cell: Cell): seq<Made>
    requires hop.Valid()
  {
    var h := HeaderOf(cell);
    if !f.alive || h.None? || !h.value.kind.Data? || !Due(f.bwd, h.value.counter) then [] else WrapMade(hop, cell, inbound)
  }

  /** A cell that passes on backwards was sealed by one call, and one that does not by none. */
  lemma WrappedByOne(hop: Hop, inbound: Uint64, f: Flow, cell: Cell, fill: Body)
    requires hop.Valid() && Lengths(hop.aead)
    ensures var (o, made) := (Return(hop, inbound, f, cell, fill).1, BackMade(hop, inbound, f, cell));
            if o.Passed? then made == WrapMade(hop, cell, inbound) && |made| == 1 else made == []
  {}

  // ------------------------------------- every outcome, told by the cipher alone

  /** What the cipher opens of a data cell of this circuit, under the hop's key and the cell's own number. */
  function Layer(hop: Hop, inbound: Uint64, cell: Cell): Option<Bytes>
    requires hop.Valid()
  {
    var h := HeaderOf(cell);
    if h.None? || h.value != Header(Data, inbound, h.value.counter) || h.value.counter >= COUNTER_LIMIT || hop.aead.nonceSize < 16 then None
    else
      hop.aead.open(hop.key, NonceFor(hop.aead.nonceSize, Forward, inbound, h.value.counter).value,
                    BodyOf(cell)[..LayerLen(hop.index, hop.aead.overhead)], DataAd(h.value.counter, hop.index))
  }

  lemma LayerIsPeeled(hop: Hop, inbound: Uint64, cell: Cell, fill: Body)
    requires hop.Valid() && Lengths(hop.aead)
    ensures Layer(hop, inbound, cell).Some? <==> ForCircuit(cell, inbound) && Peel(hop, cell, fill).Ok?
    ensures Layer(hop, inbound, cell).Some? ==>
              var inner, h := Layer(hop, inbound, cell).value, HeaderOf(cell).value;
              && h == Header(Data, inbound, h.counter) && h.counter < COUNTER_LIMIT && |inner| <= BODY_SIZE
              && Peel(hop, cell, fill).value == NewCell(Header(Data, inbound, Shift(h.counter, hop.offset.forward)), Overlay(inner, fill))
  {
    if HeaderOf(cell).Some? {
      AdOfKind(cell, HeaderOf(cell).value.counter, hop.index);
    }
  }

  /** One more number taken, in turn or as the first of all, while numbers last. */
  predicate InTurn(t: Turn, n: Counter) {
    t.taken < 0x1000_0000_0000_0000 && (t.seeded ==> n == t.next)
  }

  /** A number with an offset added, as it leaves the hop: the sum, brought back below 2^62. */
  function Moved(n: Counter, offset: Counter): Counter {
    if n + offset < 0x4000_0000_0000_0000 then n + offset else n + offset - 0x4000_0000_0000_0000
  }

  function Onwards(t: Turn, n: Counter): Turn {
    Turn(Moved(n, 1), t.taken + 1, true)
  }

  lemma TurnsSo(t: Turn, n: Uint64)
    ensures Due(t, n) <==> n < 0x4000_0000_0000_0000 && InTurn(t, n)
    ensures n < COUNTER_LIMIT ==> Take(t, n) == Onwards(t, n)
  {}

  /** A cell laid out so: its header, what its body starts with, and the refill behind that. */
  predicate LaidOut(cell: Cell, h: Header, start: Bytes, fill: Body) {
    HeaderOf(cell) == Some(h) && |start| <= BODY_SIZE && BodyOf(cell) == start + fill[|start|..]
  }

  lemma RelabelledLayout(inbound: Uint64, nextId: Uint64, v: Counter, inner: Bytes, fill: Body)
    requires |inner| <= BODY_SIZE
    ensures LaidOut(SetCircuit(NewCell(Header(Data, inbound, v), Overlay(inner, fill)), nextId), Header(Data, nextId, v), inner, fill)
  {
    HeaderRoundTrip(Header(Data, inbound, v), Overlay(inner, fill));
    Relabelled(NewCell(Header(Data, inbound, v), Overlay(inner, fill)), nextId);
  }

  /** What leaves on the next link, when the hop opened the cell. */
  ghost predicate Peels(hop: Hop, inbound: Uint64, nextId: Uint64, cell: Cell, fill: Body, layer: Option<Bytes>, peeled: Result<Cell, WireError>) {
    && (layer.Some? <==> ForCircuit(cell, inbound) && peeled.Ok?)
    && (layer.Some? ==>
          && HeaderOf(cell).value.counter < COUNTER_LIMIT
          && LaidOut(SetCircuit(peeled.value, nextId),
                     Header(Data, nextId, Moved(HeaderOf(cell).value.counter, hop.offset.forward)), layer.value, fill))
  }

  lemma LayerPeels(hop: Hop, inbound: Uint64, nextId: Uint64, cell: Cell, fill: Body)
    requires hop.Valid() && Lengths(hop.aead)
    ensures Peels(hop, inbound, nextId, cell, fill, Layer(hop, inbound, cell), Peel(hop, cell, fill))
  {
    LayerIsPeeled(hop, inbound, cell, fill);
    if Layer(hop, inbound, cell).Some? {
      RelabelledLayout(inbound, nextId, Shift(HeaderOf(cell).value.counter, hop.offset.forward), Layer(hop, inbound, cell).value, fill);
    }
  }

  /** A data cell that opened goes by its turn, and by nothing else. */
  ghost predicate PassedOn(hop: Hop, nextId: Uint64, f: Flow, n: Uint64, inner: Bytes, fill: Body, f': Flow, o: Outcome) {
    if n < COUNTER_LIMIT && InTurn(f.fwd, n) then
      && f' == Flow(Onwards(f.fwd, n), f.bwd, f.replies, true) && o.Passed?
      && LaidOut(o.cell, Header(Data, nextId, Moved(n, hop.offset.forward)), inner, fill)
    else f' == Flow(f.fwd, f.bwd, f.replies, false) && o == Broken
  }

  /**
   A cell whose layer does not open decides nothing: the flow stays as it was and the
   circuit lives. One that opens in turn leaves on the next link with its number
   moved on and its layer off. Only one that opens out of turn ends the circuit.
   */
  lemma RoutesExactly(hop: Hop, inbound: Uint64, nextId: Uint64, f: Flow, cell: Cell, fill: Body)
    requires hop.Valid() && Lengths(hop.aead)
    ensures var (f', o) := Route(hop, inbound, nextId, f, cell, fill);
            if !f.alive || Layer(hop, inbound, cell).None? then f' == f && o == Dropped
            else PassedOn(hop, nextId, f, HeaderOf(cell).value.counter, Layer(hop, inbound, cell).value, fill, f', o)
  {
    LayerPeels(hop, inbound, nextId, cell, fill);
    if HeaderOf(cell).Some? {
      TurnsSo(f.fwd, HeaderOf(cell).value.counter);
    }
  }

  /** The cell a hop sends back under this number: its own layer around inner. */
  predicate SentBack(hop: Hop, inbound: Uint64, n: Counter, inner: Bytes, fill: Body, cell: Cell)
    requires hop.aead.nonceSize >= 16
  {
    var v := Moved(n, hop.offset.backward);
    LaidOut(cell, Header(Data, inbound, v),
            hop.aead.seal(hop.key, NonceFor(hop.aead.nonceSize, Backward, inbound, v).value, inner, DataAd(v, hop.index)), fill)
  }

  lemma SealSendsBack(hop: Hop, inbound: Uint64, n: Counter, inner: Bytes, fill: Body)
    requires hop.Valid() && Lengths(hop.aead) && |inner| == LayerLen(hop.index + 1, hop.aead.overhead)
    ensures var r := HopSeal(hop, Header(Data, inbound, Shift(n, hop.offset.backward)), inner, fill);
            && (r.Ok? <==> hop.aead.nonceSize >= 16)
            && (r.Ok? ==> SentBack(hop, inbound, n, inner, fill, r.value))
  {
    if hop.aead.nonceSize >= 16 {
      var hdr := Header(Data, inbound, Shift(n, hop.offset.backward));
      var sealed := hop.aead.seal(hop.key, NonceFor(hop.aead.nonceSize, Backward, inbound, hdr.counter).value, inner, DataAd(hdr.counter, hop.index));
      HeaderRoundTrip(hdr, Overlay(sealed, fill));
    }
  }

  /** What an exit reads of a data cell of its circuit. */
  function ReadAt(hop: Hop, inbound: Uint64, cell: Cell, fill: Body): Option<Message>
    requires hop.Valid() && Lengths(hop.aead)
  {
    match Layer(hop, inbound, cell)
    case None => None
    case Some(inner) =>
      match Unframe(inner + fill[|inner|..])
      case Err(_) => None
      case Ok(m) => Some(m)
  }

  lemma ReadIsOpened(hop: Hop, inbound: Uint64, cell: Cell, fill: Body)
    requires hop.Valid() && Lengths(hop.aead)
    ensures ReadAt(hop, inbound, cell, fill).Some? <==> ForCircuit(cell, inbound) && OpenLast(hop, cell, fill).Ok?
    ensures ReadAt(hop, inbound, cell, fill).Some? ==>
              OpenLast(hop, cell, fill) == Ok(ReadAt(hop, inbound, cell, fill).value) && hop.aead.nonceSize >= 16
              && HeaderOf(cell).Some? && HeaderOf(cell).value.counter < COUNTER_LIMIT
  {
    LayerIsPeeled(hop, inbound, cell, fill);
  }

  /** What goes back for a message: the answer when there is one and it fits, cover otherwise. */
  function AnswerTo(m: Message, answer: Option<Bytes>, room: nat): Message {
    if !m.cover && answer.Some? && |answer.value| + 2 <= room && |answer.value| < 0x8000 then Message(answer.value, false)
    else Message([], true)
  }

  /**
   At the exit a cell that does not open, or holds no message, decides nothing. One
   read in turn is delivered and answered under the next reply number, which it takes
   whether or not an answer can be sealed. One read out of turn ends the circuit.
   */
  lemma DeliversExactly(hop: Hop, inbound: Uint64, f: Flow, cell: Cell, fill: Body, answer: Option<Bytes>, pad: Bytes, refill: Body)
    requires hop.Valid() && Lengths(hop.aead) && |pad| == LayerLen(hop.index + 1, hop.aead.overhead)
    ensures var (f', o) := RouteExit(hop, inbound, f, cell, fill, answer, pad, refill);
            if !f.alive || ReadAt(hop, inbound, cell, fill).None? then f' == f && o == Dropped
            else
              var n, m := HeaderOf(cell).value.counter, ReadAt(hop, inbound, cell, fill).value;
              if !InTurn(f.fwd, n) then f' == Flow(f.fwd, f.bwd, f.replies, false) && o == Broken
              else if f.replies >= 0x1000_0000_0000_0000 || |pad| < 2 then
                f' == Flow(Onwards(f.fwd, n), f.bwd, f.replies + 1, false) && o == Broken
              else
                && f' == Flow(Onwards(f.fwd, n), f.bwd, f.replies + 1, true)
                && o.Answered? && o.message == m && o.answer == AnswerTo(m, answer, |pad|) && Frame(o.answer, pad).Ok?
                && SentBack(hop, inbound, f.replies, Frame(o.answer, pad).value, refill, o.cell)
  {
    ReadIsOpened(hop, inbound, cell, fill);
    if ReadAt(hop, inbound, cell, fill).Some? && f.replies < CELL_LIMIT && |pad| >= 2 {
      var reply := AnswerTo(ReadAt(hop, inbound, cell, fill).value, answer, |pad|);
      SealSendsBack(hop, inbound, f.replies, Frame(reply, pad).value, refill);
    }
  }

  /** On the way back the header decides alone: a cell in turn goes on inside one more layer, any other ends the circuit. */
  lemma ReturnsExactly(hop: Hop, inbound: Uint64, f: Flow, cell: Cell, fill: Body)
    requires hop.Valid() && Lengths(hop.aead)
    ensures var (f', o) := Return(hop, inbound, f, cell, fill);
            var h := HeaderOf(cell);
            if !f.alive then f' == f && o == Dropped
            else if h.None? || !h.value.kind.Data? || h.value.counter >= 0x4000_0000_0000_0000 || !InTurn(f.bwd, h.value.counter) then
              f' == Flow(f.fwd, f.bwd, f.replies, false) && o == Broken
            else if hop.aead.nonceSize < 16 then
              f' == Flow(f.fwd, Onwards(f.bwd, h.value.counter), f.replies, false) && o == Broken
            else
              && f' == Flow(f.fwd, Onwards(f.bwd, h.value.counter), f.replies, true) && o.Passed?
              && 0 <= LayerLen(hop.index + 1, hop.aead.overhead) <= BODY_SIZE
              && SentBack(hop, inbound, h.value.counter, BodyOf(cell)[..LayerLen(hop.index + 1, hop.aead.overhead)], fill, o.cell)
  {
    var h := HeaderOf(cell);
    if h.Some? && h.value.counter < COUNTER_LIMIT {
      assert LayerLen(hop.index + 1, hop.aead.overhead) == LayerLen(hop.index, hop.aead.overhead) - hop.aead.overhead;
      SealSendsBack(hop, inbound, h.value.counter, BodyOf(cell)[..LayerLen(hop.index + 1, hop.aead.overhead)], fill);
    }
  }

  /** The record a relay keeps, its fields changed in place as cells pass. */
  class RelayCircuit {
    const hop: Hop
    const inbound: Uint64
    const nextId: Uint64
    var fwdSeq: Turn
    var bwdSeq: Turn
    var replies: nat
    var alive: bool

    ghost predicate Valid() {
      hop.Valid() && Lengths(hop.aead)
    }

    function State(): Flow
      reads this
    {
      Flow(fwdSeq, bwdSeq, replies, alive)
    }

    /** The exit expects a first value; every other hop takes it from its first cell. */
    constructor (hop: Hop, inbound: Uint64, nextId: Uint64, first: Option<Uint64>)
      ensures this.hop == hop && this.inbound == inbound && this.nextId == nextId
      ensures State() == Flow(if first.Some? then Turn(first.value, 0, true) else FRESH, FRESH, 0, true)
    {
      this.hop, this.inbound, this.nextId := hop, inbound, nextId;
      fwdSeq := if first.Some? then Turn(first.value, 0, true) else FRESH;
      bwdSeq, replies, alive := FRESH, 0, true;
    }

    method Forward(cell: Cell, fill: Body) returns (o: Outcome)
      requires Valid()
      modifies this
      ensures (State(), o) == Route(hop, inbound, nextId, old(State()), cell, fill)
    {
      if !alive || !ForCircuit(cell, inbound) {
        return Dropped;
      }
      var counter := HeaderOf(cell).value.counter;
      var peeled := Peel(hop, cell, fill);
      if peeled.Err? {
        return Dropped;
      }
      if !Due(fwdSeq, counter) {
        alive := false;
        return Broken;
      }
      fwdSeq := Take(fwdSeq, counter);
      return Passed(SetCircuit(peeled.value, nextId));
    }

    /** Whatever becomes of the cell, made holds every call of seal made over it. */
    method Deliver(cell: Cell, fill: Body, answer: Option<Bytes>, pad: Bytes, refill: Body)
      returns (o: Outcome, made: seq<Made>)
      requires Valid() && |pad| == LayerLen(hop.index + 1, hop.aead.overhead) && replies < TWO64
      modifies this
      ensures (State(), o) == RouteExit(hop, inbound, old(State()), cell, fill, answer, pad, refill)
      ensures made == ExitMade(hop, inbound, old(State()), cell, fill, answer, pad)
      ensures |made| == if o.Answered? then 1 else 0
    {
      made := [];
      if !alive || !ForCircuit(cell, inbound) {
        return Dropped, made;
      }
      var counter := HeaderOf(cell).value.counter;
      var read := OpenLast(hop, cell, fill);
      if read.Err? {
        return Dropped, made;
      }
      var m := read.value;
      if !Due(fwdSeq, counter) {
        alive := false;
        return Broken, made;
      }
      fwdSeq := Take(fwdSeq, counter);
      o, made := Reply(m, answer, pad, refill);
    }

    /** One reply under the next number: the answer if it fits, cover if it does not, and one call of seal for either. */
    method Reply(m: Message, answer: Option<Bytes>, pad: Bytes, refill: Body) returns (o: Outcome, made: seq<Made>)
      requires Valid() && |pad| == LayerLen(hop.index + 1, hop.aead.overhead) && replies < TWO64
      modifies this
      ensures replies == old(replies) + 1 && fwdSeq == old(fwdSeq) && bwdSeq == old(bwdSeq)
      ensures var reply := Answering(hop, m, answer, pad);
              var sealed := SealReply(hop, inbound, old(replies), reply, pad, refill);
              && o == (if sealed.Ok? then Answered(m, reply, sealed.value) else Broken)
              && alive == (old(alive) && sealed.Ok?)
      ensures made == AnswerMade(hop, inbound, old(replies), m, answer, pad)
      ensures |made| == if o.Answered? then 1 else 0
    {
      made := [];
      var number := replies;
      replies := replies + 1;
      if !m.cover && answer.Some? {
        var sealed;
        sealed, made := MakeReply(hop, inbound, number, Message(answer.value, false), pad, refill);
        if sealed.Ok? {
          return Answered(m, Message(answer.value, false), sealed.value), made;
        }
        if sealed.error != PayloadSize {
          alive := false;
          return Broken, made;
        }
      }
      var sealed, more := MakeReply(hop, inbound, number, Message([], true), pad, refill);
      made := made + more;
      if sealed.Err? {
        alive := false;
        return Broken, made;
      }
      return Answered(m, Message([], true), sealed.value), made;
    }

    method Backward(cell: Cell, fill: Body) returns (o: Outcome, made: seq<Made>)
      requires Valid()
      modifies this
      ensures (State(), o) == Return(hop, inbound, old(State()), cell, fill)
      ensures made == BackMade(hop, inbound, old(State()), cell)
      ensures |made| == if o.Passed? then 1 else 0
    {
      made := [];
      if !alive {
        return Dropped, made;
      }
      var h := HeaderOf(cell);
      if h.None? || !h.value.kind.Data? || !Due(bwdSeq, h.value.counter) {
        alive := false;
        return Broken, made;
      }
      bwdSeq := Take(bwdSeq, h.value.counter);
      var out;
      out, made := WrapCell(hop, cell, inbound, fill);
      if out.Err? {
        alive := false;
        return Broken, made;
      }
      return Passed(out.value), made;
    }
  }
}

/** The client's end of a circuit (client/client.go). */
module Clients {
  import opened Results
  import opened ByteStrings
  import opened Counters
  import opened Cells
  import opened Ciphers
  import opened Onion

  /** The four classes a refused reply is reported as. */
  datatype Refusal = ReplyHeader | ReplyNotOpened | ReplyOutOfTurn | ReplyUnsolicited

  /** Cells written, replies taken in turn, and the class that ended the circuit. */
  datatype Talk = Talk(sent: nat, accepted: seq<Message>, refused: Option<Refusal>)

  const SILENT := Talk(0, [], None)

  function SendOne(c: Circuit, t: Talk, m: Message, fill: Bytes): (r: (Talk, Result<Cell, WireError>))
    requires c.Shaped() && Lengths(c.aead) && t.sent < TWO64
    requires |fill| == LayerLen(c.Hops(), c.aead.overhead) || c.MaxPayload() < 0
  {
    match SealedCell(c, t.sent, m, fill)
    case Err(e) => (t, Err(e))
    case Ok(cell) => (t.(sent := t.sent + 1), Ok(cell))
  }

  /** The client's four checks of a reply, in the order that decides which class a refusal is reported as. */
  function Check(c: Circuit, cell: Cell, want: nat, sent: nat): Result<Message, Refusal>
    requires c.Shaped() && c.Hops() > 0 && Lengths(c.aead)
  {
    var h := HeaderOf(cell);
    if h.None? || !h.value.kind.Data? || h.value.circuit != c.links[0] then Err(ReplyHeader)
    else match Opened(c, cell, Backward)
      case Err(_) => Err(ReplyNotOpened)
      case Ok(m) =>
        if ReplyNumber(c, h.value.counter) != want then Err(ReplyOutOfTurn)
        else if want >= sent then Err(ReplyUnsolicited)
        else Ok(m)
  }

  /** What every layer of a cell, taken off in turn, and the frame inside give. */
  function ReadBack(c: Circuit, h: Header, body: Body): Option<Message>
    requires c.Shaped() && c.Hops() > 0 && Lengths(c.aead)
  {
    if h.counter >= 0x4000_0000_0000_0000 || c.aead.nonceSize < 16 then None
    else match Strip(c, Backward, h.counter, body, 0)
      case None => None
      case Some(inner) => match Unframe(inner)
        case Err(_) => None
        case Ok(m) => Some(m)
  }

  /**
   Which of the four classes a refused reply falls into, each by a condition of its
   own: a header that is not of this circuit, layers or a frame that do not open, a
   number other than the one due, a reply to no cell written. Any other is taken.
   */
  lemma ChecksExactly(c: Circuit, cell: Cell, want: nat, sent: nat)
    requires c.Shaped() && c.Hops() > 0 && Lengths(c.aead)
    ensures var r, h := Check(c, cell, want, sent), HeaderOf(cell);
            var mine := h.Some? && h.value == Header(Data, c.links[0], h.value.counter);
            var read := if mine then ReadBack(c, h.value, BodyOf(cell)) else None;
            && (r == Err(ReplyHeader) <==> !mine)
            && (r == Err(ReplyNotOpened) <==> mine && read.None?)
            && (r == Err(ReplyOutOfTurn) <==> mine && read.Some? && Unshift(h.value.counter, c.total.backward) != want)
            && (r == Err(ReplyUnsolicited) <==> mine && read.Some? && Unshift(h.value.counter, c.total.backward) == want && want >= sent)
            && (r.Ok? <==> mine && read.Some? && Unshift(h.value.counter, c.total.backward) == want && want < sent)
            && (r.Ok? ==> r.value == read.value)
  {
    var h := HeaderOf(cell);
    if h.Some? && h.value.kind.Data? && h.value.counter < COUNTER_LIMIT && c.aead.nonceSize >= 16 {
      StripCellIsStrip(c, cell, h.value, Backward, 0, BodyOf(cell));
    }
  }

  function ReceiveOne(c: Circuit, t: Talk, cell: Cell): Talk
    requires c.Shaped() && c.Hops() > 0 && Lengths(c.aead)
  {
    if t.refused.Some? then t
    else match Check(c, cell, |t.accepted|, t.sent)
      case Err(e) => t.(refused := Some(e))
      case Ok(m) => t.(accepted := t.accepted + [m])
  }

  function ReceiveAll(c: Circuit, t: Talk, cells: seq<Cell>): Talk
    requires c.Shaped() && c.Hops() > 0 && Lengths(c.aead)
  {
    if cells == [] then t
    else ReceiveOne(c, ReceiveAll(c, t, cells[..|cells| - 1]), cells[|cells| - 1])
  }

  lemma {:induction false} NothingAfterRefusal(c: Circuit, t: Talk, cells: seq<Cell>, k: nat)
    requires c.Shaped() && c.Hops() > 0 && Lengths(c.aead) && k <= |cells|
    requires ReceiveAll(c, t, cells[..k]).refused.Some?
    ensures ReceiveAll(c, t, cells) == ReceiveAll(c, t, cells[..k])
    decreases |cells|
  {
    if k == |cells| {
      assert cells[..k] == cells;
    } else {
      var init := cells[..|cells| - 1];
      assert init[..k] == cells[..k];
      NothingAfterRefusal(c, t, init, k);
    }
  }

  /** After these cells: each one up to the first refused was taken under the next number, and a refusal names its class. */
  ghost predicate TakenUpTo(c: Circuit, t: Talk, cells: seq<Cell>, t': Talk)
    requires c.Shaped() && c.Hops() > 0 && Lengths(c.aead)
  {
    var n, k := |t.accepted|, |t'.accepted| - |t.accepted|;
    && t'.sent == t.sent && 0 <= k <= |cells| && t'.accepted[..n] == t.accepted
    && (forall i :: 0 <= i < k ==> Check(c, cells[i], n + i, t.sent) == Ok(t'.accepted[n + i]))
    && (t'.refused.None? ==> k == |cells|)
    && (t'.refused.Some? ==> k < |cells| && Check(c, cells[k], n + k, t.sent) == Err(t'.refused.value))
  }

  /** A client takes replies as long as each passes its check under the number due, and not one more. */
  lemma {:induction false} ReceivesExactly(c: Circuit, t: Talk, cells: seq<Cell>)
    requires c.Shaped() && c.Hops() > 0 && Lengths(c.aead) && t.refused.None?
    ensures TakenUpTo(c, t, cells, ReceiveAll(c, t, cells))
    decreases |cells|
  {
    if cells != [] {
      var init := cells[..|cells| - 1];
      ReceivesExactly(c, t, init);
      OneMore(c, t, init, ReceiveAll(c, t, init), cells[|cells| - 1]);
      assert init + [cells[|cells| - 1]] == cells;
    }
  }

  lemma OneMore(c: Circuit, t: Talk, cells: seq<Cell>, m: Talk, cell: Cell)
    requires c.Shaped() && c.Hops() > 0 && Lengths(c.aead) && TakenUpTo(c, t, cells, m)
    ensures TakenUpTo(c, t, cells + [cell], ReceiveOne(c, m, cell))
  {}

  class Client {
    const circuit: Circuit
    var sent: nat
    var accepted: seq<Message>
    var refused: Option<Refusal>
    var closed: bool

    ghost predicate Valid()
      reads this
    {
      circuit.Shaped() && circuit.Hops() > 0 && Lengths(circuit.aead) && sent < TWO64
    }

    function State(): Talk
      reads this
    {
      Talk(sent, accepted, refused)
    }

    constructor (c: Circuit)
      requires c.Shaped() && c.Hops() > 0 && Lengths(c.aead)
      ensures Valid() && circuit == c && State() == SILENT && !closed
    {
      circuit := c;
      sent, accepted, refused, closed := 0, [], None, false;
    }

    /** Numbers and seals one message; only a message that was sealed uses up a number. */
    method Send(m: Message, fill: Bytes) returns (r: Result<Cell, WireError>, made: seq<Made>)
      requires Valid()
      requires |fill| == LayerLen(circuit.Hops(), circuit.aead.overhead) || circuit.MaxPayload() < 0
      modifies this
      ensures Valid() && closed == old(closed)
      ensures old(closed) ==> r == Err(Closed) && State() == old(State())
      ensures !old(closed) ==> (State(), r) == SendOne(circuit, old(State()), m, fill)
      ensures made == if r.Ok? then LayersMade(circuit, old(sent), Frame(m, fill).value, 0) else []
    {
      if closed {
        return Err(Closed), [];
      }
      var n := sent;
      r, made := Onion.Seal(circuit, n, m, fill);
      if r.Ok? {
        sent := n + 1;
      }
    }

    /** Reads what the entry link brings until a reply is refused. */
    method Receive(cells: seq<Cell>)
      requires Valid() && refused.None?
      modifies this
      ensures Valid() && closed == old(closed)
      ensures State() == ReceiveAll(circuit, old(State()), cells)
    {
      var want, k := |accepted|, 0;
      while k < |cells|
        invariant 0 <= k <= |cells| && refused.None? && want == |accepted|
        invariant Valid() && closed == old(closed) && sent == old(sent)
        invariant State() == ReceiveAll(circuit, old(State()), cells[..k])
      {
        var read := Check(circuit, cells[k], want, sent);
        assert cells[..k + 1][..k] == cells[..k];
        if read.Err? {
          refused := Some(read.error);
          assert State() == ReceiveAll(circuit, old(State()), cells[..k + 1]);
          NothingAfterRefusal(circuit, old(State()), cells, k + 1);
          return;
        }
        accepted := accepted + [read.value];
        want, k := want + 1, k + 1;
      }
      assert cells[..k] == cells;
    }

    method Close()
      modifies this
      ensures closed && State() == old(State())
    {
      closed := true;
    }
  }
}
