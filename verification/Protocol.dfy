/**
 Every run of a client, its relays and its exit, on links where any cell may be
 lost, copied, reordered, altered or injected.

 A step hands one party a cell of the adversary's choice, so the links need no
 state: a link that loses, delays (as a pacer does) or copies is one way of
 choosing. The only limit on the adversary is the cipher: under the exit's key
 it has no ciphertext that the client or the exit did not seal. Under every
 other key it may seal what it likes, so the relays in between may be hostile.
 */
module Protocol {
  import opened Results
  import opened ByteStrings
  import opened Counters
  import opened Nonces
  import opened Cells
  import opened Ciphers
  import opened Onion
  import opened Journeys
  import opened Replay
  import opened RelayCircuits
  import opened Clients

  datatype World = World(
    // every sealing there is, and the (key, nonce) pairs honest parties have used, in order
    log: set<Sealing>,
    uses: seq<Use>,
    // the client: its fields, what it sealed, and the framed bytes of it
    talk: Talk,
    sealed: seq<Message>,
    inners: seq<Bytes>,
    // one circuit record per hop
    flows: seq<Flow>,
    // the exit: what it delivered, what its Deliver returned, what it answered
    delivered: seq<Message>,
    returned: seq<Option<Bytes>>,
    answers: seq<Message>,
    answerInners: seq<Bytes>
  )

  datatype Action =
    | Send(m: Message, pad: Bytes)
    | Pass(hop: nat, cell: Cell, refill: Body)
    | Exit(cell: Cell, refill: Body, answer: Option<Bytes>, pad: Bytes, tail: Body)
    | Back(hop: nat, cell: Cell, refill: Body)
    | Receive(cell: Cell)
    // a circuit closed at a hop for any reason: idleness, a full queue, a failed write
    | Close(hop: nat)
    // a sealing under any key but the exit's
    | Forge(s: Sealing)

  function Last(c: Circuit): nat
    requires c.Hops() >= 1
  {
    c.Hops() - 1
  }

  ghost predicate Possible(c: Circuit, a: Action)
    requires c.Hops() >= 1
  {
    match a
    case Send(m, fill) => |fill| == LayerLen(c.Hops(), c.aead.overhead) && (m.cover ==> m.payload == [])
    case Pass(i, _, _) => i < Last(c)
    case Exit(_, _, _, pad, _) => |pad| == LayerLen(c.Hops(), c.aead.overhead)
    case Back(i, _, _) => i < Last(c)
    case Receive(_) => true
    case Close(i) => i < c.Hops()
    case Forge(s) => s.key != c.keys[Last(c)]
  }

  // ------------------------------------------------------------ the sealings

  function ClientSealing(c: Circuit, counter: Counter, inner: Bytes, i: nat): Sealing
    requires c.Shaped() && i < c.Hops() && c.aead.nonceSize >= 16
  {
    var v := ValueAt(c, i, Forward, counter);
    Sealing(c.keys[i], LayerNonce(c, i, Forward, v), Nest(c, Forward, counter, inner, i + 1), DataAd(v, i))
  }

  ghost function ClientSealings(c: Circuit, counter: Counter, inner: Bytes): set<Sealing>
    requires c.Shaped() && c.aead.nonceSize >= 16
  {
    set i | 0 <= i < c.Hops() :: ClientSealing(c, counter, inner, i)
  }

  function RelaySealing(c: Circuit, offsets: seq<Offsets>, i: nat, counter: Counter, inner: Bytes): Sealing
    requires c.Shaped() && i < c.Hops() == |offsets| && c.aead.nonceSize >= 16
  {
    var v := Shift(counter, offsets[i].backward);
    Sealing(c.keys[i], LayerNonce(c, i, Backward, v), inner, DataAd(v, i))
  }

  function RelayUse(c: Circuit, offsets: seq<Offsets>, i: nat, counter: Counter): Use
    requires c.Shaped() && i < c.Hops() == |offsets| && c.aead.nonceSize >= 16
  {
    Use(i, LayerNonce(c, i, Backward, Shift(counter, offsets[i].backward)))
  }

  function ClientUse(c: Circuit, i: nat, counter: Counter): Use
    requires c.Shaped() && i < c.Hops() && c.aead.nonceSize >= 16
  {
    Use(i, LayerNonce(c, i, Forward, ValueAt(c, i, Forward, counter)))
  }

  // ---------------------------------------------------------------- the steps

  /** The calls that seal one cell are one sealing at each hop. */
  lemma {:induction false} ClientMade(c: Circuit, counter: Counter, inner: Bytes, i: nat)
    requires c.Shaped() && i <= c.Hops() && c.aead.nonceSize >= 16
    ensures UsesOf(LayersMade(c, counter, inner, i)) == SealUses(c, counter, i)
    ensures forall s :: s in SealingsOf(LayersMade(c, counter, inner, i)) <==>
              exists j :: i <= j < c.Hops() && s == ClientSealing(c, counter, inner, j)
    decreases c.Hops() - i
  {
    if i < c.Hops() {
      ClientMade(c, counter, inner, i + 1);
      var more := LayersMade(c, counter, inner, i + 1);
      var one := Made(i, ClientSealing(c, counter, inner, i));
      assert LayersMade(c, counter, inner, i) == more + [one];
      assert UsesOf(more + [one]) == UsesOf(more) + [UseOf(one)];
      assert SealingsOf(more + [one]) == SealingsOf(more) + {one.sealing};
    }
  }

  lemma RecordNothing(w: World)
    ensures Record(w, []) == w
  {}

  lemma RecordOne(w: World, m: Made)
    ensures Record(w, [m]) == w.(log := w.log + {m.sealing}, uses := w.uses + [UseOf(m)])
  {
    assert SealingsOf([m]) == {m.sealing};
    assert UsesOf([m]) == [UseOf(m)];
  }

  /** A layer a relay adds is its sealing, under the guarded cipher as under the cipher itself. */
  lemma HopMadeIs(c: Circuit, offsets: seq<Offsets>, log: set<Sealing>, i: nat, counter: Counter, inner: Bytes)
    requires Chain(c, offsets) && i < c.Hops()
    ensures HopMade(GuardedHop(c, offsets, log, i), Header(Data, c.links[i], Shift(counter, offsets[i].backward)), inner)
         == [Made(i, RelaySealing(c, offsets, i, counter, inner))]
    ensures UseOf(Made(i, RelaySealing(c, offsets, i, counter, inner))) == RelayUse(c, offsets, i, counter)
  {}

  function GuardedHop(c: Circuit, offsets: seq<Offsets>, log: set<Sealing>, i: nat): Hop
    requires c.Shaped() && i < c.Hops() == |offsets|
  {
    HopAt(c, offsets, i).(aead := Guarded(c.aead, log))
  }

  lemma GuardedFits(c: Circuit, offsets: seq<Offsets>, log: set<Sealing>, i: nat)
    requires Chain(c, offsets) && i < c.Hops()
    ensures GuardedHop(c, offsets, log, i).Valid()
    ensures Lengths(Guarded(c.aead, log))
  {
    HopFits(c, offsets, i);
    GuardedOpens(c.aead, log, [], [], [], [], []);
  }

  /** What honest parties have sealed is exactly the calls of seal they made. */
  function Record(w: World, made: seq<Made>): World {
    w.(log := w.log + SealingsOf(made), uses := w.uses + UsesOf(made))
  }

  ghost predicate Shape(c: Circuit, w: World) {
    && |w.flows| == c.Hops()
    && |w.sealed| == |w.inners| == w.talk.sent <= CELL_LIMIT
    && |w.delivered| == |w.returned| == |w.answers| == |w.answerInners|
  }

  function First(c: Circuit): Counter
    requires c.Shaped() && c.Hops() >= 1
  {
    ValueAt(c, Last(c), Forward, 0)
  }

  function Initial(c: Circuit): World
    requires c.Shaped() && c.Hops() >= 1
  {
    World({}, [], SILENT, [], [],
          seq(c.Hops(), i => Flow(if i == Last(c) then Turn(First(c), 0, true) else FRESH, FRESH, 0, true)),
          [], [], [], [])
  }

  ghost function Step(c: Circuit, offsets: seq<Offsets>, w: World, a: Action): World
    requires Chain(c, offsets) && Shape(c, w) && Possible(c, a)
  {
    match a
    case Send(m, fill) =>
      var (talk, cell) := SendOne(c, w.talk, m, fill);
      if cell.Err? then w
      else
        FrameFits(c, offsets, m, fill);
        var inner := Frame(m, fill).value;
        Record(w, LayersMade(c, w.talk.sent, inner, 0)).(talk := talk, sealed := w.sealed + [m], inners := w.inners + [inner])
    case Pass(i, cell, refill) =>
      GuardedFits(c, offsets, w.log, i);
      var (flow, _) := Route(GuardedHop(c, offsets, w.log, i), c.links[i], c.links[i + 1], w.flows[i], cell, refill);
      w.(flows := w.flows[i := flow])
    case Exit(cell, refill, answer, pad, tail) =>
      var i := Last(c);
      GuardedFits(c, offsets, w.log, i);
      var hop := GuardedHop(c, offsets, w.log, i);
      var (flow, o) := RouteExit(hop, c.links[i], w.flows[i], cell, refill, answer, pad, tail);
      var w' := Record(w, ExitMade(hop, c.links[i], w.flows[i], cell, refill, answer, pad)).(flows := w.flows[i := flow]);
      if !o.Answered? || Frame(o.answer, pad).Err? then w'
      else
        w'.(delivered := w.delivered + [o.message], returned := w.returned + [answer],
            answers := w.answers + [o.answer], answerInners := w.answerInners + [Frame(o.answer, pad).value])
    case Back(i, cell, refill) =>
      GuardedFits(c, offsets, w.log, i);
      var hop := GuardedHop(c, offsets, w.log, i);
      var (flow, _) := Return(hop, c.links[i], w.flows[i], cell, refill);
      Record(w, BackMade(hop, c.links[i], w.flows[i], cell)).(flows := w.flows[i := flow])
    case Receive(cell) =>
      GuardedFits(c, offsets, w.log, 0);
      w.(talk := ReceiveOne(c.(aead := Guarded(c.aead, w.log)), w.talk, cell))
    case Close(i) => w.(flows := w.flows[i := w.flows[i].(alive := false)])
    case Forge(s) => w.(log := w.log + {s})
  }

  // What each step records, told by whose sealing it is.

  lemma SendRecords(c: Circuit, offsets: seq<Offsets>, w: World, m: Message, pad: Bytes)
    requires Chain(c, offsets) && Shape(c, w) && Possible(c, Send(m, pad))
    ensures var w' := Step(c, offsets, w, Send(m, pad));
            if SendOne(c, w.talk, m, pad).1.Err? then w' == w
            else
              && Frame(m, pad).Ok? && w.talk.sent < CELL_LIMIT
              && w' == w.(talk := SendOne(c, w.talk, m, pad).0, sealed := w.sealed + [m], inners := w.inners + [Frame(m, pad).value],
                          log := w.log + ClientSealings(c, w.talk.sent, Frame(m, pad).value),
                          uses := w.uses + SealUses(c, w.talk.sent, 0))
  {
    if SendOne(c, w.talk, m, pad).1.Ok? {
      FrameFits(c, offsets, m, pad);
      var inner := Frame(m, pad).value;
      ClientMade(c, w.talk.sent, inner, 0);
      assert SealingsOf(LayersMade(c, w.talk.sent, inner, 0)) == ClientSealings(c, w.talk.sent, inner);
    }
  }

  lemma ExitRecords(c: Circuit, offsets: seq<Offsets>, w: World, cell: Cell, refill: Body, answer: Option<Bytes>, pad: Bytes, tail: Body)
    requires Chain(c, offsets) && Shape(c, w) && Possible(c, Exit(cell, refill, answer, pad, tail))
    requires GuardedHop(c, offsets, w.log, Last(c)).Valid() && Lengths(Guarded(c.aead, w.log))
    ensures var i, f := Last(c), w.flows[Last(c)];
            var w' := Step(c, offsets, w, Exit(cell, refill, answer, pad, tail));
            var (f', o) := RouteExit(GuardedHop(c, offsets, w.log, i), c.links[i], f, cell, refill, answer, pad, tail);
            if !o.Answered? then w' == w.(flows := w.flows[i := f'])
            else
              && f.replies < CELL_LIMIT && Frame(o.answer, pad).Ok?
              && w' == w.(flows := w.flows[i := f'], delivered := w.delivered + [o.message], returned := w.returned + [answer],
                          answers := w.answers + [o.answer], answerInners := w.answerInners + [Frame(o.answer, pad).value],
                          log := w.log + {RelaySealing(c, offsets, i, f.replies, Frame(o.answer, pad).value)},
                          uses := w.uses + [RelayUse(c, offsets, i, f.replies)])
  {
    var i, f := Last(c), w.flows[Last(c)];
    var hop := GuardedHop(c, offsets, w.log, i);
    AnsweredByOne(hop, c.links[i], f, cell, refill, answer, pad, tail);
    var o := RouteExit(hop, c.links[i], f, cell, refill, answer, pad, tail).1;
    if o.Answered? {
      var inner := Frame(o.answer, pad).value;
      HopMadeIs(c, offsets, w.log, i, f.replies, inner);
      RecordOne(w, Made(i, RelaySealing(c, offsets, i, f.replies, inner)));
    } else {
      RecordNothing(w);
    }
  }

  lemma BackRecords(c: Circuit, offsets: seq<Offsets>, w: World, i: nat, cell: Cell, refill: Body)
    requires Chain(c, offsets) && Shape(c, w) && Possible(c, Back(i, cell, refill))
    requires GuardedHop(c, offsets, w.log, i).Valid() && Lengths(Guarded(c.aead, w.log))
    ensures var w' := Step(c, offsets, w, Back(i, cell, refill));
            var (f', o) := Return(GuardedHop(c, offsets, w.log, i), c.links[i], w.flows[i], cell, refill);
            if !o.Passed? then w' == w.(flows := w.flows[i := f'])
            else
              && HeaderOf(cell).Some? && HeaderOf(cell).value.counter < COUNTER_LIMIT
              && 0 <= LayerLen(i + 1, c.aead.overhead) <= BODY_SIZE
              && var counter, inner := HeaderOf(cell).value.counter, BodyOf(cell)[..LayerLen(i + 1, c.aead.overhead)];
                 w' == w.(flows := w.flows[i := f'], log := w.log + {RelaySealing(c, offsets, i, counter, inner)},
                          uses := w.uses + [RelayUse(c, offsets, i, counter)])
  {
    var hop := GuardedHop(c, offsets, w.log, i);
    HopFits(c, offsets, i);
    WrappedByOne(hop, c.links[i], w.flows[i], cell, refill);
    if Return(hop, c.links[i], w.flows[i], cell, refill).1.Passed? {
      var counter, inner := HeaderOf(cell).value.counter, BodyOf(cell)[..LayerLen(i + 1, c.aead.overhead)];
      HopMadeIs(c, offsets, w.log, i, counter, inner);
      RecordOne(w, Made(i, RelaySealing(c, offsets, i, counter, inner)));
    } else {
      RecordNothing(w);
    }
  }

  /** What the client writes is nothing but its logged sealings, one inside the other. */
  lemma SentIsLogged(c: Circuit, offsets: seq<Offsets>, w: World, m: Message, pad: Bytes, i: nat)
    requires Chain(c, offsets) && Shape(c, w) && Possible(c, Send(m, pad)) && i < c.Hops()
    requires SendOne(c, w.talk, m, pad).1.Ok?
    ensures Frame(m, pad).Ok? && w.talk.sent < CELL_LIMIT
    ensures var s := ClientSealing(c, w.talk.sent, Frame(m, pad).value, i);
            && s in Step(c, offsets, w, Send(m, pad)).log
            && c.aead.seal(s.key, s.nonce, s.plain, s.ad) == Nest(c, Forward, w.talk.sent, Frame(m, pad).value, i)
            && BodyOf(SendOne(c, w.talk, m, pad).1.value) == Nest(c, Forward, w.talk.sent, Frame(m, pad).value, 0)
  {
    SendRecords(c, offsets, w, m, pad);
  }

  /** What the exit writes starts with the sealing the step logs. */
  lemma AnswerIsLogged(c: Circuit, offsets: seq<Offsets>, w: World, cell: Cell, refill: Body, answer: Option<Bytes>, pad: Bytes, tail: Body)
    requires Chain(c, offsets) && Shape(c, w) && Possible(c, Exit(cell, refill, answer, pad, tail))
    requires GuardedHop(c, offsets, w.log, Last(c)).Valid() && Lengths(Guarded(c.aead, w.log))
    requires RouteExit(GuardedHop(c, offsets, w.log, Last(c)), c.links[Last(c)], w.flows[Last(c)], cell, refill, answer, pad, tail).1.Answered?
    ensures var i, f := Last(c), w.flows[Last(c)];
            var o := RouteExit(GuardedHop(c, offsets, w.log, i), c.links[i], f, cell, refill, answer, pad, tail).1;
            && f.replies < CELL_LIMIT && Frame(o.answer, pad).Ok?
            && var s := RelaySealing(c, offsets, i, f.replies, Frame(o.answer, pad).value);
               && s in Step(c, offsets, w, Exit(cell, refill, answer, pad, tail)).log
               && BodyOf(o.cell)[..LayerLen(i, c.aead.overhead)] == c.aead.seal(s.key, s.nonce, s.plain, s.ad)
  {
    var i, f := Last(c), w.flows[Last(c)];
    var hop := GuardedHop(c, offsets, w.log, i);
    ExitRecords(c, offsets, w, cell, refill, answer, pad, tail);
    AnsweredByOne(hop, c.links[i], f, cell, refill, answer, pad, tail);
    AnswerIsSealed(hop, c.links[i], f, cell, refill, answer, pad, tail);
    HopMadeIs(c, offsets, w.log, i, f.replies, Frame(RouteExit(hop, c.links[i], f, cell, refill, answer, pad, tail).1.answer, pad).value);
  }

  /** What a relay sends back starts with the sealing the step logs. */
  lemma WrapIsLogged(c: Circuit, offsets: seq<Offsets>, w: World, i: nat, cell: Cell, refill: Body)
    requires Chain(c, offsets) && Shape(c, w) && Possible(c, Back(i, cell, refill))
    requires GuardedHop(c, offsets, w.log, i).Valid() && Lengths(Guarded(c.aead, w.log))
    requires Return(GuardedHop(c, offsets, w.log, i), c.links[i], w.flows[i], cell, refill).1.Passed?
    ensures HeaderOf(cell).Some? && HeaderOf(cell).value.counter < COUNTER_LIMIT && 0 <= LayerLen(i + 1, c.aead.overhead) <= BODY_SIZE
    ensures var out := Return(GuardedHop(c, offsets, w.log, i), c.links[i], w.flows[i], cell, refill).1.cell;
            var s := RelaySealing(c, offsets, i, HeaderOf(cell).value.counter, BodyOf(cell)[..LayerLen(i + 1, c.aead.overhead)]);
            && s in Step(c, offsets, w, Back(i, cell, refill)).log
            && BodyOf(out)[..LayerLen(i, c.aead.overhead)] == c.aead.seal(s.key, s.nonce, s.plain, s.ad)
  {
    var hop := GuardedHop(c, offsets, w.log, i);
    BackRecords(c, offsets, w, i, cell, refill);
    WrappedByOne(hop, c.links[i], w.flows[i], cell, refill);
    WrapIsSealed(hop, c.links[i], w.flows[i], cell, refill);
    HopMadeIs(c, offsets, w.log, i, HeaderOf(cell).value.counter, BodyOf(cell)[..LayerLen(i + 1, c.aead.overhead)]);
  }

  // ----------------------------------------------------------- the invariants

  /** m is what these framed bytes hold. */
  predicate Holds(m: Message, inner: Bytes) {
    Frame(m, inner) == Ok(inner) && (m.cover ==> m.payload == [])
  }

  lemma FramedHolds(m: Message, fill: Bytes)
    requires Frame(m, fill).Ok? && (m.cover ==> m.payload == [])
    ensures Holds(m, Frame(m, fill).value)
  {
    var n := |m.payload| + if m.cover then COVER_FLAG else 0;
    var head := BigEndian(n, 2) + m.payload;
    var inner := Frame(m, fill).value;
    assert Overlay(head, inner) == head + inner[|head|..] == inner;
  }

  /** The reply the exit owes for a delivered message, given what Deliver returned. */
  function Owed(c: Circuit, m: Message, returned: Option<Bytes>): Message {
    if !m.cover && returned.Some? && |returned.value| <= c.MaxPayload() then Message(returned.value, false)
    else Message([], true)
  }

  ghost predicate Turns(c: Circuit, w: World)
    requires c.Shaped() && c.Hops() >= 1 && Shape(c, w)
  {
    && (forall i :: 0 <= i < c.Hops() ==> Reachable(w.flows[i].fwd) && Reachable(w.flows[i].bwd))
    && var exit := w.flows[Last(c)];
       && exit.fwd.seeded && exit.fwd.next == Shift(First(c), exit.fwd.taken)
       && exit.fwd.taken == exit.replies == |w.delivered|
  }

  ghost predicate Contents(c: Circuit, w: World)
    requires Shape(c, w)
  {
    && (forall k :: 0 <= k < |w.sealed| ==>
          Holds(w.sealed[k], w.inners[k]) && |w.inners[k]| == LayerLen(c.Hops(), c.aead.overhead))
    && (forall k :: 0 <= k < |w.answers| ==> Holds(w.answers[k], w.answerInners[k]))
    && (forall k :: 0 <= k < |w.answers| ==> w.answers[k] == Owed(c, w.delivered[k], w.returned[k]))
  }

  ghost predicate FromClient(c: Circuit, inners: seq<Bytes>, s: Sealing)
    requires c.Shaped() && c.aead.nonceSize >= 16 && |inners| <= CELL_LIMIT
  {
    exists i, k :: 0 <= i < c.Hops() && 0 <= k < |inners| && s == ClientSealing(c, k, inners[k], i)
  }

  ghost predicate FromRelay(c: Circuit, offsets: seq<Offsets>, s: Sealing)
    requires c.Shaped() && c.Hops() == |offsets| && c.Hops() >= 1 && c.aead.nonceSize >= 16
  {
    exists i, v: Counter, p :: 0 <= i < Last(c) && s == RelaySealing(c, offsets, i, v, p)
  }

  ghost predicate FromExit(c: Circuit, offsets: seq<Offsets>, inners: seq<Bytes>, s: Sealing)
    requires c.Shaped() && c.Hops() == |offsets| && c.Hops() >= 1 && c.aead.nonceSize >= 16
    requires |inners| <= CELL_LIMIT
  {
    exists k :: 0 <= k < |inners| && s == RelaySealing(c, offsets, Last(c), k, inners[k])
  }

  /** Every sealing under the exit's key was made by an honest party, for what it recorded. */
  ghost predicate Logged(c: Circuit, offsets: seq<Offsets>, w: World)
    requires Chain(c, offsets) && Shape(c, w) && |w.answerInners| <= CELL_LIMIT
  {
    forall s :: s in w.log && s.key == c.keys[Last(c)] ==>
      FromClient(c, w.inners, s) || FromRelay(c, offsets, s) || FromExit(c, offsets, w.answerInners, s)
  }

  ghost predicate Invariant(c: Circuit, offsets: seq<Offsets>, w: World) {
    && Chain(c, offsets) && Shape(c, w)
    && Turns(c, w)
    && Contents(c, w)
    && Logged(c, offsets, w)
    && w.delivered <= w.sealed
    && w.talk.accepted <= w.answers
    && |w.talk.accepted| <= w.talk.sent
  }

  // ----------------------------------------------------- what opening proves

  lemma SameHop(i: nat, j: nat, v: Uint64, u: Uint64)
    requires i < MAX_HOPS && j < MAX_HOPS && DataAd(v, i) == DataAd(u, j)
    ensures i == j && v == u
  {
    assert DataAd(v, i)[10] == i && DataAd(u, j)[10] == j;
    assert DataAd(v, i)[2..10] == U64(v) && DataAd(u, j)[2..10] == U64(u);
    U64Injective(v, u);
  }

  /** Two forward counters that give a hop one value are one counter. */
  lemma SameCounter(c: Circuit, i: nat, k: Counter, l: Counter)
    requires c.Shaped() && i < c.Hops()
    requires ValueAt(c, i, Forward, k) == ValueAt(c, i, Forward, l)
    ensures k == l
  {
    ShiftInjective(k, l, c.before[i].forward);
  }

  /** No backward sealing can pass for a forward one, nor the other way round. */
  lemma DirectionsDiffer(c: Circuit, offsets: seq<Offsets>, i: nat, u: Counter, p: Bytes, link: Uint64, v: Counter)
    requires c.Shaped() && i < c.Hops() == |offsets| && c.aead.nonceSize >= 16
    ensures RelaySealing(c, offsets, i, u, p).nonce != NonceFor(c.aead.nonceSize, Forward, link, v).value
  {
    if RelaySealing(c, offsets, i, u, p).nonce == NonceFor(c.aead.nonceSize, Forward, link, v).value {
      NonceInjective(c.aead.nonceSize, Forward, link, v, Backward, c.links[i], Shift(u, offsets[i].backward));
    }
  }

  /** Sizes and indices the sealings are told apart by. */
  predicate Telling(c: Circuit, offsets: seq<Offsets>) {
    c.Shaped() && 1 <= c.Hops() == |offsets| && c.Hops() <= MAX_HOPS && c.aead.nonceSize >= 16
  }

  lemma OnlyClientsForward(c: Circuit, offsets: seq<Offsets>, inners: seq<Bytes>, answers: seq<Bytes>, s: Sealing, link: Uint64, v: Counter)
    requires Telling(c, offsets) && |inners| <= CELL_LIMIT && |answers| <= CELL_LIMIT
    requires s.nonce == NonceFor(c.aead.nonceSize, Forward, link, v).value
    ensures !FromRelay(c, offsets, s) && !FromExit(c, offsets, answers, s)
  {
    if FromRelay(c, offsets, s) {
      var i, u: Counter, p :| 0 <= i < Last(c) && s == RelaySealing(c, offsets, i, u, p);
      DirectionsDiffer(c, offsets, i, u, p, link, v);
    }
    if FromExit(c, offsets, answers, s) {
      var j :| 0 <= j < |answers| && s == RelaySealing(c, offsets, Last(c), j, answers[j]);
      DirectionsDiffer(c, offsets, Last(c), j, answers[j], link, v);
    }
  }

  lemma OnlyExitsBackward(c: Circuit, offsets: seq<Offsets>, inners: seq<Bytes>, s: Sealing, v: Counter)
    requires Telling(c, offsets) && |inners| <= CELL_LIMIT
    requires s.nonce == LayerNonce(c, Last(c), Backward, v) && s.ad == DataAd(v, Last(c))
    ensures !FromClient(c, inners, s) && !FromRelay(c, offsets, s)
  {
    if FromClient(c, inners, s) {
      var i, j :| 0 <= i < c.Hops() && 0 <= j < |inners| && s == ClientSealing(c, j, inners[j], i);
      NonceInjective(c.aead.nonceSize, Backward, c.links[Last(c)], v, Forward, c.links[i], ValueAt(c, i, Forward, j));
    }
    if FromRelay(c, offsets, s) {
      var i, u: Counter, p :| 0 <= i < Last(c) && s == RelaySealing(c, offsets, i, u, p);
      SameHop(i, Last(c), Shift(u, offsets[i].backward), v);
    }
  }

  /** A forward layer that opens at the exit is the client's, for the counter on it. */
  lemma ExitOpensClients(c: Circuit, offsets: seq<Offsets>, w: World, link: Uint64, v: Counter, plain: Bytes) returns (k: nat)
    requires Invariant(c, offsets, w)
    requires Sealing(c.keys[Last(c)], NonceFor(c.aead.nonceSize, Forward, link, v).value, plain, DataAd(v, Last(c))) in w.log
    ensures k < |w.sealed| && v == ValueAt(c, Last(c), Forward, k) && plain == w.inners[k]
  {
    var s := Sealing(c.keys[Last(c)], NonceFor(c.aead.nonceSize, Forward, link, v).value, plain, DataAd(v, Last(c)));
    OnlyClientsForward(c, offsets, w.inners, w.answerInners, s, link, v);
    k := SealedByClient(c, offsets, w.inners, s, v);
  }

  lemma SealedByClient(c: Circuit, offsets: seq<Offsets>, inners: seq<Bytes>, s: Sealing, v: Counter) returns (k: nat)
    requires Telling(c, offsets) && |inners| <= CELL_LIMIT && FromClient(c, inners, s) && s.ad == DataAd(v, Last(c))
    ensures k < |inners| && v == ValueAt(c, Last(c), Forward, k) && s.plain == inners[k]
  {
    var i, j :| 0 <= i < c.Hops() && 0 <= j < |inners| && s == ClientSealing(c, j, inners[j], i);
    SameHop(i, Last(c), ValueAt(c, i, Forward, j), v);
    k := j;
  }

  /** A backward layer under the exit's key and index is one of the exit's replies. */
  lemma ClientOpensExits(c: Circuit, offsets: seq<Offsets>, w: World, v: Counter, plain: Bytes) returns (k: nat)
    requires Invariant(c, offsets, w)
    requires Sealing(c.keys[Last(c)], LayerNonce(c, Last(c), Backward, v), plain, DataAd(v, Last(c))) in w.log
    ensures k < |w.answers| && v == Shift(k, offsets[Last(c)].backward) && plain == w.answerInners[k]
  {
    var s := Sealing(c.keys[Last(c)], LayerNonce(c, Last(c), Backward, v), plain, DataAd(v, Last(c)));
    OnlyExitsBackward(c, offsets, w.inners, s, v);
    k := SealedByExit(c, offsets, w.answerInners, s, v);
  }

  lemma SealedByExit(c: Circuit, offsets: seq<Offsets>, answers: seq<Bytes>, s: Sealing, v: Counter) returns (k: nat)
    requires Telling(c, offsets) && |answers| <= CELL_LIMIT && FromExit(c, offsets, answers, s) && s.ad == DataAd(v, Last(c))
    ensures k < |answers| && v == Shift(k, offsets[Last(c)].backward) && s.plain == answers[k]
  {
    var j :| 0 <= j < |answers| && s == RelaySealing(c, offsets, Last(c), j, answers[j]);
    SameHop(Last(c), Last(c), Shift(j, offsets[Last(c)].backward), v);
    k := j;
  }

  /** The last layer the client strips is opened under the exit's key. */
  lemma {:induction false} StripEndsAtExit(c: Circuit, dir: Direction, first: Counter, body: Bytes, i: nat, inner: Bytes)
    returns (ct: Bytes)
    requires c.Shaped() && i < c.Hops() && c.aead.nonceSize >= 16 && Lengths(c.aead)
    requires |body| == LayerLen(i, c.aead.overhead)
    requires Strip(c, dir, first, body, i) == Some(inner)
    ensures var v := ValueAt(c, Last(c), dir, first);
            c.aead.open(c.keys[Last(c)], LayerNonce(c, Last(c), dir, v), ct, DataAd(v, Last(c))) == Some(inner)
    decreases c.Hops() - i
  {
    var v := ValueAt(c, i, dir, first);
    var p := c.aead.open(c.keys[i], LayerNonce(c, i, dir, v), body, DataAd(v, i));
    assert LayerLen(i + 1, c.aead.overhead) == LayerLen(i, c.aead.overhead) - c.aead.overhead;
    if i == Last(c) {
      ct := body;
    } else {
      ct := StripEndsAtExit(c, dir, first, p.value, i + 1, inner);
    }
  }

  // ------------------------------------------------------ every step keeps it

  /** Recording more keeps what was recorded. */
  lemma LoggedKept(c: Circuit, offsets: seq<Offsets>, w: World, w': World)
    requires Chain(c, offsets) && Shape(c, w) && Shape(c, w')
    requires |w.answerInners| <= CELL_LIMIT && |w'.answerInners| <= CELL_LIMIT
    requires Logged(c, offsets, w)
    requires w.inners <= w'.inners && w.answerInners <= w'.answerInners
    requires forall s :: s in w'.log && s !in w.log && s.key == c.keys[Last(c)] ==>
               FromClient(c, w'.inners, s) || FromRelay(c, offsets, s) || FromExit(c, offsets, w'.answerInners, s)
    ensures Logged(c, offsets, w')
  {
    forall s | s in w.log && s.key == c.keys[Last(c)]
      ensures FromClient(c, w'.inners, s) || FromRelay(c, offsets, s) || FromExit(c, offsets, w'.answerInners, s)
    {
      if FromClient(c, w.inners, s) {
        var i, k :| 0 <= i < c.Hops() && 0 <= k < |w.inners| && s == ClientSealing(c, k, w.inners[k], i);
        assert s == ClientSealing(c, k, w'.inners[k], i);
      } else if !FromRelay(c, offsets, s) {
        var k :| 0 <= k < |w.answerInners| && s == RelaySealing(c, offsets, Last(c), k, w.answerInners[k]);
        assert s == RelaySealing(c, offsets, Last(c), k, w'.answerInners[k]);
      }
    }
  }

  lemma SendKeeps(c: Circuit, offsets: seq<Offsets>, w: World, m: Message, pad: Bytes)
    requires Invariant(c, offsets, w) && Possible(c, Send(m, pad))
    ensures Invariant(c, offsets, Step(c, offsets, w, Send(m, pad)))
  {
    var w' := Step(c, offsets, w, Send(m, pad));
    SendRecords(c, offsets, w, m, pad);
    if SendOne(c, w.talk, m, pad).1.Ok? {
      FrameFits(c, offsets, m, pad);
      FramedHolds(m, pad);
      var inner := Frame(m, pad).value;
      forall s | s in ClientSealings(c, w.talk.sent, inner) ensures FromClient(c, w'.inners, s) {
        var i :| 0 <= i < c.Hops() && s == ClientSealing(c, w.talk.sent, inner, i);
        assert s == ClientSealing(c, |w.inners|, w'.inners[|w.inners|], i);
      }
      LoggedKept(c, offsets, w, w');
    }
  }

  lemma PassKeeps(c: Circuit, offsets: seq<Offsets>, w: World, i: nat, cell: Cell, refill: Body)
    requires Invariant(c, offsets, w) && Possible(c, Pass(i, cell, refill))
    ensures Invariant(c, offsets, Step(c, offsets, w, Pass(i, cell, refill)))
  {
    var w' := Step(c, offsets, w, Pass(i, cell, refill));
    var counter := if HeaderOf(cell).Some? then HeaderOf(cell).value.counter else 0;
    if Due(w.flows[i].fwd, counter) {
      TakesOnce(w.flows[i].fwd, counter);
    }
    LoggedKept(c, offsets, w, w');
  }

  /** The value the exit is due to see is that of the next cell the client sealed. */
  lemma DueIsNext(c: Circuit, offsets: seq<Offsets>, taken: Counter)
    requires BuiltFrom(c, offsets)
    ensures Shift(First(c), taken) == ValueAt(c, Last(c), Forward, taken)
  {
    var b := c.before[Last(c)].forward;
    ShiftAssociates(0, b, taken);
    ShiftAssociates(taken, b, 0);
    assert First(c) == b;
  }

  /**
   What the exit delivers is the next message the client sealed, and it always
   has an answer: no failure to seal can lose the number it took.
   */
  lemma ExitDelivers(c: Circuit, offsets: seq<Offsets>, w: World, cell: Cell, refill: Body, answer: Option<Bytes>, pad: Bytes, tail: Body)
    requires Invariant(c, offsets, w) && Possible(c, Exit(cell, refill, answer, pad, tail))
    requires GuardedHop(c, offsets, w.log, Last(c)).Valid() && Lengths(Guarded(c.aead, w.log))
    ensures var f := w.flows[Last(c)];
            var (f', o) := RouteExit(GuardedHop(c, offsets, w.log, Last(c)), c.links[Last(c)], f, cell, refill, answer, pad, tail);
            && (o.Dropped? || o.Broken? || o.Answered?)
            && (o.Dropped? ==> f' == f)
            && (o.Broken? ==> f' == f.(alive := false) && !Due(f.fwd, HeaderOf(cell).value.counter))
            && (o.Answered? ==>
                  && |w.delivered| < |w.sealed| && o.message == w.sealed[|w.delivered|]
                  && o.answer == Owed(c, o.message, answer) && Frame(o.answer, pad).Ok?
                  && HeaderOf(cell).Some? && Due(f.fwd, HeaderOf(cell).value.counter)
                  && f' == f.(fwd := Take(f.fwd, HeaderOf(cell).value.counter), replies := f.replies + 1))
  {
    var i, f := Last(c), w.flows[Last(c)];
    var hop := GuardedHop(c, offsets, w.log, i);
    if f.alive && ForCircuit(cell, c.links[i]) && OpenLast(hop, cell, refill).Ok? {
      var h := HeaderOf(cell).value;
      var m := OpenLast(hop, cell, refill).value;
      if Due(f.fwd, h.counter) {
        ExitReadsNext(c, offsets, w, cell, refill);
        AnswerFits(c, offsets, hop, m, answer, pad, f.replies, tail);
      }
    }
  }

  lemma AnswerFits(c: Circuit, offsets: seq<Offsets>, hop: Hop, m: Message, answer: Option<Bytes>, pad: Bytes, number: nat, tail: Body)
    requires Chain(c, offsets) && |pad| == LayerLen(c.Hops(), c.aead.overhead) && number < CELL_LIMIT
    requires hop.Valid() && Lengths(hop.aead) && hop.index == Last(c)
    requires hop.aead.overhead == c.aead.overhead && hop.aead.nonceSize == c.aead.nonceSize
    ensures Answering(hop, m, answer, pad) == Owed(c, m, answer)
    ensures Frame(Owed(c, m, answer), pad).Ok?
    ensures SealReply(hop, c.links[Last(c)], number, Owed(c, m, answer), pad, tail).Ok?
  {
    assert LayerLen(hop.index + 1, hop.aead.overhead) == |pad|;
  }

  lemma ExitReadsNext(c: Circuit, offsets: seq<Offsets>, w: World, cell: Cell, refill: Body)
    requires Invariant(c, offsets, w)
    requires GuardedHop(c, offsets, w.log, Last(c)).Valid() && Lengths(Guarded(c.aead, w.log))
    requires ForCircuit(cell, c.links[Last(c)])
    requires Due(w.flows[Last(c)].fwd, HeaderOf(cell).value.counter)
    requires OpenLast(GuardedHop(c, offsets, w.log, Last(c)), cell, refill).Ok?
    ensures |w.delivered| < |w.sealed|
    ensures OpenLast(GuardedHop(c, offsets, w.log, Last(c)), cell, refill).value == w.sealed[|w.delivered|]
  {
    var i := Last(c);
    var hop, h := GuardedHop(c, offsets, w.log, i), HeaderOf(cell).value;
    var nonce, ct, plain := OpenLastReads(hop, cell, refill);
    GuardedOpens(c.aead, w.log, hop.key, nonce, ct, DataAd(h.counter, i), plain);
    var k := ExitOpensClients(c, offsets, w, h.circuit, h.counter, plain);
    DueIsNext(c, offsets, |w.delivered|);
    SameCounter(c, i, k, |w.delivered|);
    UnframeFramed(w.sealed[k], plain, Overlay(plain, refill));
  }

  /** What a data cell that opens at an exit says about its layer. */
  lemma OpenLastReads(hop: Hop, cell: Cell, refill: Body) returns (nonce: Bytes, ct: Bytes, plain: Bytes)
    requires hop.Valid() && Lengths(hop.aead) && HeaderOf(cell).Some? && HeaderOf(cell).value.kind.Data?
    requires OpenLast(hop, cell, refill).Ok?
    ensures var h := HeaderOf(cell).value;
            && NonceFor(hop.aead.nonceSize, Forward, h.circuit, h.counter) == Ok(nonce)
            && hop.aead.open(hop.key, nonce, ct, DataAd(h.counter, hop.index)) == Some(plain)
            && |plain| <= BODY_SIZE && Unframe(Overlay(plain, refill)) == OpenLast(hop, cell, refill)
  {
    var h := HeaderOf(cell).value;
    nonce := NonceFor(hop.aead.nonceSize, Forward, h.circuit, h.counter).value;
    ct := BodyOf(cell)[..LayerLen(hop.index, hop.aead.overhead)];
    AdOfKind(cell, h.counter, hop.index);
    plain := hop.aead.open(hop.key, nonce, ct, DataAd(h.counter, hop.index)).value;
  }

  lemma ExitKeeps(c: Circuit, offsets: seq<Offsets>, w: World, cell: Cell, refill: Body, answer: Option<Bytes>, pad: Bytes, tail: Body)
    requires Invariant(c, offsets, w) && Possible(c, Exit(cell, refill, answer, pad, tail))
    ensures Invariant(c, offsets, Step(c, offsets, w, Exit(cell, refill, answer, pad, tail)))
  {
    var i, f := Last(c), w.flows[Last(c)];
    var w' := Step(c, offsets, w, Exit(cell, refill, answer, pad, tail));
    GuardedFits(c, offsets, w.log, i);
    ExitRecords(c, offsets, w, cell, refill, answer, pad, tail);
    ExitDelivers(c, offsets, w, cell, refill, answer, pad, tail);
    var (f', o) := RouteExit(GuardedHop(c, offsets, w.log, i), c.links[i], f, cell, refill, answer, pad, tail);
    if o.Answered? {
      FramedHolds(o.answer, pad);
      AnsweredKeeps(c, offsets, w, HeaderOf(cell).value.counter, o.message, answer, o.answer, Frame(o.answer, pad).value, w');
    } else {
      LoggedKept(c, offsets, w, w');
    }
  }

  /** The bookkeeping of one delivery. */
  lemma AnsweredKeeps(c: Circuit, offsets: seq<Offsets>, w: World, counter: Counter, m: Message, answer: Option<Bytes>,
                      reply: Message, inner: Bytes, w': World)
    requires Invariant(c, offsets, w) && Due(w.flows[Last(c)].fwd, counter)
    requires |w.delivered| < |w.sealed| && m == w.sealed[|w.delivered|]
    requires reply == Owed(c, m, answer) && Frame(reply, inner).Ok? && Frame(reply, inner).value == inner
    requires var f := w.flows[Last(c)];
             w' == w.(flows := w.flows[Last(c) := f.(fwd := Take(f.fwd, counter), replies := f.replies + 1)],
                      delivered := w.delivered + [m], returned := w.returned + [answer],
                      answers := w.answers + [reply], answerInners := w.answerInners + [inner],
                      log := w.log + {RelaySealing(c, offsets, Last(c), f.replies, inner)},
                      uses := w.uses + [RelayUse(c, offsets, Last(c), f.replies)])
    ensures Invariant(c, offsets, w')
  {
    AnsweredTurns(c, w, counter, w');
    AnsweredContents(c, w, m, answer, reply, inner, w');
    AnsweredLogged(c, offsets, w, inner, w');
  }

  lemma AnsweredContents(c: Circuit, w: World, m: Message, answer: Option<Bytes>, reply: Message, inner: Bytes, w': World)
    requires Shape(c, w) && Shape(c, w') && Contents(c, w)
    requires |w.delivered| < |w.sealed| && m == w.sealed[|w.delivered|] && w.delivered <= w.sealed
    requires reply == Owed(c, m, answer) && Frame(reply, inner).Ok? && Frame(reply, inner).value == inner
    requires w'.sealed == w.sealed && w'.inners == w.inners
    requires w'.delivered == w.delivered + [m] && w'.returned == w.returned + [answer]
    requires w'.answers == w.answers + [reply] && w'.answerInners == w.answerInners + [inner]
    ensures Contents(c, w') && w'.delivered <= w'.sealed
  {
    FramedHolds(reply, inner);
  }

  lemma AnsweredTurns(c: Circuit, w: World, counter: Counter, w': World)
    requires c.Shaped() && c.Hops() >= 1 && Shape(c, w) && Shape(c, w') && Turns(c, w)
    requires Due(w.flows[Last(c)].fwd, counter) && |w'.delivered| == |w.delivered| + 1
    requires var f := w.flows[Last(c)];
             w'.flows == w.flows[Last(c) := f.(fwd := Take(f.fwd, counter), replies := f.replies + 1)]
    ensures Turns(c, w')
  {
    var f := w.flows[Last(c)];
    TakesOnce(f.fwd, counter);
    ShiftAssociates(First(c), f.fwd.taken, 1);
  }

  lemma AnsweredLogged(c: Circuit, offsets: seq<Offsets>, w: World, inner: Bytes, w': World)
    requires Chain(c, offsets) && Shape(c, w) && Shape(c, w') && |w.answerInners| < CELL_LIMIT && Logged(c, offsets, w)
    requires w'.inners == w.inners && w'.answerInners == w.answerInners + [inner]
    requires w'.log == w.log + {RelaySealing(c, offsets, Last(c), |w.answerInners|, inner)}
    ensures Logged(c, offsets, w')
  {
    var k := |w.answerInners|;
    assert w'.answerInners[k] == inner;
    assert RelaySealing(c, offsets, Last(c), k, inner) == RelaySealing(c, offsets, Last(c), k, w'.answerInners[k]);
    LoggedKept(c, offsets, w, w');
  }

  lemma BackKeeps(c: Circuit, offsets: seq<Offsets>, w: World, i: nat, cell: Cell, refill: Body)
    requires Invariant(c, offsets, w) && Possible(c, Back(i, cell, refill))
    ensures Invariant(c, offsets, Step(c, offsets, w, Back(i, cell, refill)))
  {
    var w' := Step(c, offsets, w, Back(i, cell, refill));
    GuardedFits(c, offsets, w.log, i);
    BackRecords(c, offsets, w, i, cell, refill);
    var counter := if HeaderOf(cell).Some? then HeaderOf(cell).value.counter else 0;
    if Due(w.flows[i].bwd, counter) {
      TakesOnce(w.flows[i].bwd, counter);
    }
    LoggedKept(c, offsets, w, w');
  }

  /** A reply that passes the client's checks is the next one the exit sealed. */
  lemma ClientAcceptsNext(c: Circuit, offsets: seq<Offsets>, w: World, cell: Cell, m: Message)
    requires Invariant(c, offsets, w) && Lengths(Guarded(c.aead, w.log))
    requires Check(c.(aead := Guarded(c.aead, w.log)), cell, |w.talk.accepted|, w.talk.sent) == Ok(m)
    ensures |w.talk.accepted| < |w.answers| && m == w.answers[|w.talk.accepted|]
  {
    var g, n, i := c.(aead := Guarded(c.aead, w.log)), |w.talk.accepted|, Last(c);
    var h := HeaderOf(cell).value;
    StripCellIsStrip(g, cell, h, Backward, 0, BodyOf(cell));
    var inner := Strip(g, Backward, h.counter, BodyOf(cell), 0).value;
    var ct := StripEndsAtExit(g, Backward, h.counter, BodyOf(cell), 0, inner);
    var v := ValueAt(c, i, Backward, h.counter);
    GuardedOpens(c.aead, w.log, c.keys[i], LayerNonce(c, i, Backward, v), ct, DataAd(v, i), inner);
    var k := ClientOpensExits(c, offsets, w, v, inner);
    ReplyOfValue(c, offsets, h.counter, k);
    assert inner[..|inner|] == inner;
    UnframeFramed(w.answers[k], inner, inner);
  }

  lemma ReplyOfValue(c: Circuit, offsets: seq<Offsets>, counter: Counter, k: Counter)
    requires BuiltFrom(c, offsets)
    requires ValueAt(c, Last(c), Backward, counter) == Shift(k, offsets[Last(c)].backward)
    ensures ReplyNumber(c, counter) == k
  {
    var o := offsets[Last(c)].backward;
    SumSnoc(offsets, Last(c), Backward);
    assert offsets[..Last(c) + 1] == offsets;
    UnshiftAssociates(counter, c.before[Last(c)].backward, o);
    UnshiftShift(k, o);
  }

  lemma ReceiveKeeps(c: Circuit, offsets: seq<Offsets>, w: World, cell: Cell)
    requires Invariant(c, offsets, w)
    ensures Invariant(c, offsets, Step(c, offsets, w, Receive(cell)))
  {
    var w' := Step(c, offsets, w, Receive(cell));
    GuardedFits(c, offsets, w.log, 0);
    var g := c.(aead := Guarded(c.aead, w.log));
    if w.talk.refused.None? {
      var read := Check(g, cell, |w.talk.accepted|, w.talk.sent);
      if read.Ok? {
        ClientAcceptsNext(c, offsets, w, cell, read.value);
      }
    }
    LoggedKept(c, offsets, w, w');
  }

  lemma StepKeeps(c: Circuit, offsets: seq<Offsets>, w: World, a: Action)
    requires Invariant(c, offsets, w) && Possible(c, a)
    ensures Invariant(c, offsets, Step(c, offsets, w, a))
  {
    match a
    case Send(m, pad) => SendKeeps(c, offsets, w, m, pad);
    case Pass(i, cell, refill) => PassKeeps(c, offsets, w, i, cell, refill);
    case Exit(cell, refill, answer, pad, tail) => ExitKeeps(c, offsets, w, cell, refill, answer, pad, tail);
    case Back(i, cell, refill) => BackKeeps(c, offsets, w, i, cell, refill);
    case Receive(cell) => ReceiveKeeps(c, offsets, w, cell);
    case Close(i) => LoggedKept(c, offsets, w, Step(c, offsets, w, a));
    case Forge(s) => LoggedKept(c, offsets, w, Step(c, offsets, w, a));
  }

  // -------------------------------------------------------------- whole runs

  lemma InitialHolds(c: Circuit, offsets: seq<Offsets>)
    requires Chain(c, offsets)
    ensures Invariant(c, offsets, Initial(c))
  {
    DueIsNext(c, offsets, 0);
  }

  /** The world after these actions; each meets the invariant, so each can be taken. */
  ghost function Run(c: Circuit, offsets: seq<Offsets>, actions: seq<Action>): (w: World)
    requires Chain(c, offsets) && forall a :: a in actions ==> Possible(c, a)
    ensures Invariant(c, offsets, w)
  {
    if actions == [] then
      InitialHolds(c, offsets);
      Initial(c)
    else
      var w := Run(c, offsets, actions[..|actions| - 1]);
      StepKeeps(c, offsets, w, actions[|actions| - 1]);
      Step(c, offsets, w, actions[|actions| - 1])
  }

  lemma RunUnfolds(c: Circuit, offsets: seq<Offsets>, actions: seq<Action>)
    requires Chain(c, offsets) && forall a :: a in actions ==> Possible(c, a)
    ensures actions == [] ==> Run(c, offsets, actions) == Initial(c)
    ensures actions != [] ==>
              Run(c, offsets, actions)
              == Step(c, offsets, Run(c, offsets, actions[..|actions| - 1]), actions[|actions| - 1])
  {}

  /**
   Whatever the links do and however hostile the relays before the exit are, what
   the exit delivers is a gap-free, duplicate-free prefix of what the client
   sealed, cover and payload alike.
   */
  lemma ExitDeliversPrefix(c: Circuit, offsets: seq<Offsets>, actions: seq<Action>)
    requires Chain(c, offsets) && forall a :: a in actions ==> Possible(c, a)
    ensures var w := Run(c, offsets, actions);
            && |w.delivered| <= |w.sealed| == w.talk.sent
            && forall k :: 0 <= k < |w.delivered| ==> w.delivered[k] == w.sealed[k]
  {
    var w := Run(c, offsets, actions);
    assert Invariant(c, offsets, w);
  }

  /**
   The replies the client accepts are a prefix of those the exit sealed, the k-th
   being the one owed for the k-th message it delivered, and never more than the
   cells the client has written.
   */
  lemma ClientAcceptsPrefix(c: Circuit, offsets: seq<Offsets>, actions: seq<Action>)
    requires Chain(c, offsets) && forall a :: a in actions ==> Possible(c, a)
    ensures var w := Run(c, offsets, actions);
            && |w.talk.accepted| <= |w.answers| == |w.delivered| <= w.talk.sent
            && forall k :: 0 <= k < |w.talk.accepted| ==>
                 w.talk.accepted[k] == w.answers[k] == Owed(c, w.sealed[k], w.returned[k])
  {
    var w := Run(c, offsets, actions);
    assert Invariant(c, offsets, w);
  }

  // ---------------------------------------------- cells that decide nothing

  /** An action that changes nothing where it happens can be left out of the run. */
  lemma {:induction false} LeftOut(c: Circuit, offsets: seq<Offsets>, before: seq<Action>, a: Action, after: seq<Action>)
    requires Chain(c, offsets) && forall x :: x in before + [a] + after ==> Possible(c, x)
    requires Possible(c, a) && (forall x :: x in before ==> Possible(c, x)) && forall x :: x in before + after ==> Possible(c, x)
    requires Step(c, offsets, Run(c, offsets, before), a) == Run(c, offsets, before)
    ensures Run(c, offsets, before + [a] + after) == Run(c, offsets, before + after)
    decreases |after|
  {
    if after == [] {
      assert before + [a] + after == before + [a] && before + after == before;
      assert (before + [a])[..|before|] == before;
      RunUnfolds(c, offsets, before + [a]);
    } else {
      var init, e := after[..|after| - 1], after[|after| - 1];
      var long, short := before + [a] + after, before + after;
      assert long[..|long| - 1] == before + [a] + init && short[..|short| - 1] == before + init;
      assert long[|long| - 1] == e && short[|short| - 1] == e;
      LeftOut(c, offsets, before, a, init);
      RunUnfolds(c, offsets, long);
      RunUnfolds(c, offsets, short);
    }
  }

  /** Whatever an honest party sealed for hop i under this cell's number, or a forger under that key, it is not this cell's layer. */
  ghost predicate Unsealed(c: Circuit, w: World, i: nat, cell: Cell)
    requires c.Shaped() && i < c.Hops() && c.aead.nonceSize >= 16
  {
    forall h: Header, plain: Bytes ::
      HeaderOf(cell) == Some(h) && h.counter < COUNTER_LIMIT
      && Sealing(c.keys[i], LayerNonce(c, i, Forward, h.counter), plain, DataAd(h.counter, i)) in w.log ==>
        !(c.aead.seal(c.keys[i], LayerNonce(c, i, Forward, h.counter), plain, DataAd(h.counter, i)) <= BodyOf(cell))
  }

  /** What a relay or the exit opens was sealed for it under the cell's own number. */
  lemma OpenedWasSealed(c: Circuit, offsets: seq<Offsets>, w: World, i: nat, cell: Cell)
    requires Chain(c, offsets) && i < c.Hops() && GuardedHop(c, offsets, w.log, i).Valid()
    requires Layer(GuardedHop(c, offsets, w.log, i), c.links[i], cell).Some?
    ensures !Unsealed(c, w, i, cell)
  {
    var plain := Layer(GuardedHop(c, offsets, w.log, i), c.links[i], cell).value;
    var h := HeaderOf(cell).value;
    var ct := BodyOf(cell)[..LayerLen(i, c.aead.overhead)];
    GuardedOpens(c.aead, w.log, c.keys[i], LayerNonce(c, i, Forward, h.counter), ct, DataAd(h.counter, i), plain);
    assert ct <= BodyOf(cell);
  }

  /**
   Removing a cell nobody sealed from a run changes nothing that happens afterwards,
   at the exit as at every relay before it: whoever writes such a cell onto a link
   cannot end the circuit, take a number, or bring about a reply.
   */
  lemma UnsealedLeavesNoTrace(c: Circuit, offsets: seq<Offsets>, before: seq<Action>, a: Action, after: seq<Action>)
    requires Chain(c, offsets) && forall x :: x in before + [a] + after ==> Possible(c, x)
    requires (forall x :: x in before ==> Possible(c, x)) && Possible(c, a) && forall x :: x in before + after ==> Possible(c, x)
    requires a.Pass? || a.Exit?
    requires Unsealed(c, Run(c, offsets, before), if a.Pass? then a.hop else Last(c), a.cell)
    ensures Run(c, offsets, before + [a] + after) == Run(c, offsets, before + after)
  {
    var w := Run(c, offsets, before);
    var i := if a.Pass? then a.hop else Last(c);
    GuardedFits(c, offsets, w.log, i);
    if Layer(GuardedHop(c, offsets, w.log, i), c.links[i], a.cell).Some? {
      OpenedWasSealed(c, offsets, w, i, a.cell);
    }
    ShutChangesNothing(c, offsets, w, a);
    LeftOut(c, offsets, before, a, after);
  }

  lemma ShutChangesNothing(c: Circuit, offsets: seq<Offsets>, w: World, a: Action)
    requires Chain(c, offsets) && Shape(c, w) && Possible(c, a) && (a.Pass? || a.Exit?)
    requires var i := if a.Pass? then a.hop else Last(c);
             GuardedHop(c, offsets, w.log, i).Valid() && Layer(GuardedHop(c, offsets, w.log, i), c.links[i], a.cell).None?
    ensures Step(c, offsets, w, a) == w
  {
    var i := if a.Pass? then a.hop else Last(c);
    var hop := GuardedHop(c, offsets, w.log, i);
    GuardedFits(c, offsets, w.log, i);
    assert w.flows[i := w.flows[i]] == w.flows;
    match a {
      case Pass(_, cell, refill) =>
        RoutesExactly(hop, c.links[i], c.links[i + 1], w.flows[i], cell, refill);
      case Exit(cell, refill, answer, pad, tail) =>
        DeliversExactly(hop, c.links[i], w.flows[i], cell, refill, answer, pad, tail);
        ExitRecords(c, offsets, w, cell, refill, answer, pad, tail);
    }
  }
}
