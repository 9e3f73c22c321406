/**
 Every run of honest parties on links that lose and reorder nothing, with relays
 that pass a cell at once or hold it in a bounded queue for their own clock.
 */
module Honest {
  import opened Results
  import opened ByteStrings
  import opened Counters
  import opened Nonces
  import opened Cells
  import opened Ciphers
  import opened Onion
  import opened Journeys
  import opened Replay
  import opened RelayCircuits
  import opened Clients
  import opened Protocol
  import Pacing

  /** Whether hop i sends on its own clock, and through a queue of how many cells. */
  datatype Pace = AtOnce | Clocked(size: nat)

  datatype Net = Net(
    talk: Talk,
    sealed: seq<Message>,
    inners: seq<Bytes>,
    flows: seq<Flow>,
    // cells on the link into hop i, and held at hop i for the link after it
    toHop: seq<seq<Cell>>,
    heldOut: seq<seq<Cell>>,
    // cells on the link from hop i towards the client, and held at hop i for it
    fromHop: seq<seq<Cell>>,
    heldBack: seq<seq<Cell>>,
    answers: seq<Message>,
    answerInners: seq<Bytes>
  )

  datatype Move =
    | Write(m: Message, pad: Bytes)
    | Relay(hop: nat, refill: Body)
    | OutTick(hop: nat)
    | Answer(refill: Body, answer: Option<Bytes>, pad: Bytes, tail: Body)
    | Wrapping(hop: nat, refill: Body)
    | BackTick(hop: nat)
    | Read
    // the circuit ends at a hop for a reason of its own; what it held never leaves
    | End(hop: nat)

  ghost predicate Allowed(c: Circuit, a: Move)
    requires c.Hops() >= 1
  {
    match a
    case Write(m, pad) => |pad| == LayerLen(c.Hops(), c.aead.overhead) && (m.cover ==> m.payload == [])
    case Relay(i, _) => i < Last(c)
    case OutTick(i) => i < Last(c)
    case Answer(_, _, pad, _) => |pad| == LayerLen(c.Hops(), c.aead.overhead)
    case Wrapping(i, _) => i < Last(c)
    case BackTick(i) => i < c.Hops()
    case Read => true
    case End(i) => i < c.Hops()
  }

  ghost predicate Sized(c: Circuit, pace: seq<Pace>, n: Net) {
    && |n.flows| == |n.toHop| == |n.heldOut| == |n.fromHop| == |n.heldBack| == |pace| == c.Hops()
    && |n.sealed| == |n.inners| == n.talk.sent <= CELL_LIMIT
    && |n.answers| == |n.answerInners| <= CELL_LIMIT
    && forall i :: 0 <= i < c.Hops() && pace[i].AtOnce? ==> n.heldOut[i] == [] && n.heldBack[i] == []
  }

  function Start(c: Circuit): Net
    requires c.Shaped() && c.Hops() >= 1
  {
    var w := Initial(c);
    Net(w.talk, [], [], w.flows, seq(c.Hops(), _ => []), seq(c.Hops(), _ => []),
        seq(c.Hops(), _ => []), seq(c.Hops(), _ => []), [], [])
  }

  ghost function Go(c: Circuit, offsets: seq<Offsets>, pace: seq<Pace>, n: Net, a: Move): Net
    requires Chain(c, offsets) && Sized(c, pace, n) && Allowed(c, a)
  {
    HopsFit(c, offsets);
    match a
    case Write(m, pad) =>
      var (talk, cell) := SendOne(c, n.talk, m, pad);
      if cell.Err? then n
      else
        FrameFits(c, offsets, m, pad);
        n.(talk := talk, sealed := n.sealed + [m], inners := n.inners + [Frame(m, pad).value],
           toHop := n.toHop[0 := n.toHop[0] + [cell.value]])
    case Relay(i, refill) =>
      if !n.flows[i].alive || n.toHop[i] == [] then n
      else
        var (flow, o) := Route(HopAt(c, offsets, i), c.links[i], c.links[i + 1], n.flows[i], n.toHop[i][0], refill);
        var n' := n.(toHop := n.toHop[i := n.toHop[i][1..]], flows := n.flows[i := flow]);
        if !o.Passed? then n' else SendOn(pace, n', i, flow, o.cell)
    case OutTick(i) =>
      if !n.flows[i].alive || n.heldOut[i] == [] then n
      else n.(heldOut := n.heldOut[i := n.heldOut[i][1..]],
              toHop := n.toHop[i + 1 := n.toHop[i + 1] + [n.heldOut[i][0]]])
    case Answer(refill, answer, pad, tail) =>
      var i := Last(c);
      if !n.flows[i].alive || n.toHop[i] == [] then n
      else
        var (flow, o) := RouteExit(HopAt(c, offsets, i), c.links[i], n.flows[i], n.toHop[i][0], refill, answer, pad, tail);
        var n' := n.(toHop := n.toHop[i := n.toHop[i][1..]], flows := n.flows[i := flow]);
        if !o.Answered? || Frame(o.answer, pad).Err? then n'
        else
          var n'' := n'.(answers := n.answers + [o.answer], answerInners := n.answerInners + [Frame(o.answer, pad).value]);
          SendBack(c, pace, n'', i, flow, o.cell)
    case Wrapping(i, refill) =>
      if !n.flows[i].alive || n.fromHop[i + 1] == [] then n
      else
        var (flow, o) := Return(HopAt(c, offsets, i), c.links[i], n.flows[i], n.fromHop[i + 1][0], refill);
        var n' := n.(fromHop := n.fromHop[i + 1 := n.fromHop[i + 1][1..]], flows := n.flows[i := flow]);
        if !o.Passed? then n' else SendBack(c, pace, n', i, flow, o.cell)
    case BackTick(i) =>
      if !n.flows[i].alive || n.heldBack[i] == [] then n
      else n.(heldBack := n.heldBack[i := n.heldBack[i][1..]],
              fromHop := n.fromHop[i := n.fromHop[i] + [n.heldBack[i][0]]])
    case Read =>
      if n.talk.refused.Some? || n.fromHop[0] == [] then n
      else n.(talk := ReceiveOne(c, n.talk, n.fromHop[0][0]), fromHop := n.fromHop[0 := n.fromHop[0][1..]])
    case End(i) =>
      n.(flows := n.flows[i := n.flows[i].(alive := false)],
         heldOut := n.heldOut[i := []], heldBack := n.heldBack[i := []])
  }

  /** A forward cell leaves hop i at once, is held, or finds the queue full and ends the circuit. */
  ghost function SendOn(pace: seq<Pace>, n: Net, i: nat, flow: Flow, cell: Cell): Net
    requires i + 1 < |pace| == |n.flows| == |n.toHop| == |n.heldOut|
  {
    if pace[i].AtOnce? then n.(toHop := n.toHop[i + 1 := n.toHop[i + 1] + [cell]])
    else match Pacing.Enqueued(n.heldOut[i], pace[i].size, cell)
      case Some(more) => n.(heldOut := n.heldOut[i := more])
      case None => n.(flows := n.flows[i := flow.(alive := false)])
  }

  /** A backward cell leaves hop i at once, is held, or finds the queue full and ends the circuit. */
  ghost function SendBack(c: Circuit, pace: seq<Pace>, n: Net, i: nat, flow: Flow, cell: Cell): Net
    requires i < |pace| == |n.flows| == |n.fromHop| == |n.heldBack|
  {
    if pace[i].AtOnce? then n.(fromHop := n.fromHop[i := n.fromHop[i] + [cell]])
    else match Pacing.Enqueued(n.heldBack[i], pace[i].size, cell)
      case Some(more) => n.(heldBack := n.heldBack[i := more])
      case None => n.(flows := n.flows[i := flow.(alive := false)])
  }

  // ---------------------------------------------------------- the invariants

  /** These cells, on the link into hop i, are cells start, start + 1, ... of the client. */
  ghost predicate OutStream(c: Circuit, inners: seq<Bytes>, i: nat, start: nat, cells: seq<Cell>)
    requires c.Shaped() && i < c.Hops() && c.aead.nonceSize >= 16 && |inners| <= CELL_LIMIT
  {
    && start + |cells| <= |inners|
    && forall k :: 0 <= k < |cells| ==> OnTheWay(c, Forward, start + k, inners[start + k], i, cells[k])
  }

  /** These cells, leaving hop i towards the client, are replies start, start + 1, ... of the exit. */
  ghost predicate BackStream(c: Circuit, inners: seq<Bytes>, i: nat, start: nat, cells: seq<Cell>)
    requires c.Shaped() && i < c.Hops() && c.aead.nonceSize >= 16 && |inners| <= CELL_LIMIT
  {
    && start + |cells| <= |inners|
    && forall k :: 0 <= k < |cells| ==> OnTheWay(c, Backward, AtClient(c, start + k), inners[start + k], i, cells[k])
  }

  /** What has left hop i - 1 for hop i and not arrived. */
  function Outbound(n: Net, i: nat): seq<Cell>
    requires i < |n.toHop| && i <= |n.heldOut|
  {
    if i == 0 then n.toHop[0] else n.toHop[i] + n.heldOut[i - 1]
  }

  function Inbound(n: Net, i: nat): seq<Cell>
    requires i < |n.fromHop| && i < |n.heldBack|
  {
    n.fromHop[i] + n.heldBack[i]
  }

  /** How many cells hop i has taken and how many replies it has sent off. */
  function TakenOut(n: Net, i: nat): nat
    requires i < |n.flows|
  {
    n.flows[i].fwd.taken
  }

  function SentBack(n: Net, i: nat): nat
    requires i < |n.flows|
  {
    if i == |n.flows| - 1 then |n.answers| else n.flows[i].bwd.taken
  }

  /** How many replies whoever hop i sends to has taken. */
  function TakenBack(n: Net, i: nat): nat
    requires i < |n.flows|
  {
    if i == 0 then |n.talk.accepted| else n.flows[i - 1].bwd.taken
  }

  /** The link into hop i carries the next cells in turn; none is missing while its sender lives. */
  ghost predicate OutAt(c: Circuit, n: Net, i: nat)
    requires c.Shaped() && c.aead.nonceSize >= 16 && |n.inners| <= CELL_LIMIT
    requires i < c.Hops() == |n.flows| == |n.toHop| == |n.heldOut|
  {
    && OutStream(c, n.inners, i, TakenOut(n, i), Outbound(n, i))
    && var end := TakenOut(n, i) + |Outbound(n, i)|;
       if i == 0 then end == |n.inners|
       else end <= TakenOut(n, i - 1) && (n.flows[i - 1].alive ==> end == TakenOut(n, i - 1))
  }

  ghost predicate BackAt(c: Circuit, n: Net, i: nat)
    requires c.Shaped() && c.aead.nonceSize >= 16 && |n.answerInners| <= CELL_LIMIT
    requires i < c.Hops() == |n.flows| == |n.fromHop| == |n.heldBack|
  {
    && BackStream(c, n.answerInners, i, TakenBack(n, i), Inbound(n, i))
    && var end := TakenBack(n, i) + |Inbound(n, i)|;
       end <= SentBack(n, i) && (n.flows[i].alive ==> end == SentBack(n, i))
  }

  /** Every hop is due exactly the cell and the reply it has not taken yet. */
  ghost predicate TurnAt(c: Circuit, offsets: seq<Offsets>, n: Net, i: nat)
    requires c.Shaped() && i < c.Hops() == |n.flows| == |offsets|
    requires |n.inners| <= CELL_LIMIT && |n.answerInners| <= CELL_LIMIT
  {
    var f := n.flows[i];
    && f.fwd.taken <= |n.inners|
    && (f.fwd.seeded ==> f.fwd.next == ValueAt(c, i, Forward, f.fwd.taken))
    && f.bwd.taken <= |n.answerInners|
    && (f.bwd.seeded ==> i < c.Hops() - 1 && f.bwd.next == BackValue(offsets, f.bwd.taken, i + 1))
    && (i == c.Hops() - 1 ==> f.replies == f.fwd.taken == |n.answerInners|)
  }

  ghost predicate InTurn(c: Circuit, offsets: seq<Offsets>, pace: seq<Pace>, n: Net) {
    && Chain(c, offsets) && Sized(c, pace, n)
    && (forall i :: 0 <= i < c.Hops() ==> TurnAt(c, offsets, n, i))
    && (forall i :: 0 <= i < c.Hops() ==> OutAt(c, n, i))
    && (forall i :: 0 <= i < c.Hops() ==> BackAt(c, n, i))
    && (forall k :: 0 <= k < |n.sealed| ==>
          Holds(n.sealed[k], n.inners[k]) && |n.inners[k]| == LayerLen(c.Hops(), c.aead.overhead))
    && (forall k :: 0 <= k < |n.answers| ==>
          Holds(n.answers[k], n.answerInners[k]) && |n.answerInners[k]| == LayerLen(c.Hops(), c.aead.overhead))
    && n.talk.accepted <= n.answers
    && n.talk.refused.None?
  }

  // ------------------------------------------------------------- streams

  lemma OutSnoc(c: Circuit, inners: seq<Bytes>, i: nat, start: nat, cells: seq<Cell>, cell: Cell)
    requires c.Shaped() && i < c.Hops() && c.aead.nonceSize >= 16 && |inners| <= CELL_LIMIT
    requires OutStream(c, inners, i, start, cells) && start + |cells| < |inners|
    requires OnTheWay(c, Forward, start + |cells|, inners[start + |cells|], i, cell)
    ensures OutStream(c, inners, i, start, cells + [cell])
  {}

  lemma OutTail(c: Circuit, inners: seq<Bytes>, i: nat, start: nat, cells: seq<Cell>)
    requires c.Shaped() && i < c.Hops() && c.aead.nonceSize >= 16 && |inners| <= CELL_LIMIT
    requires OutStream(c, inners, i, start, cells) && cells != []
    ensures OutStream(c, inners, i, start + 1, cells[1..])
  {
    forall k | 0 <= k < |cells| - 1
      ensures OnTheWay(c, Forward, start + 1 + k, inners[start + 1 + k], i, cells[1..][k])
    {
      assert cells[1..][k] == cells[k + 1];
    }
  }

  lemma BackSnoc(c: Circuit, inners: seq<Bytes>, i: nat, start: nat, cells: seq<Cell>, cell: Cell)
    requires c.Shaped() && i < c.Hops() && c.aead.nonceSize >= 16 && |inners| <= CELL_LIMIT
    requires BackStream(c, inners, i, start, cells) && start + |cells| < |inners|
    requires OnTheWay(c, Backward, AtClient(c, start + |cells|), inners[start + |cells|], i, cell)
    ensures BackStream(c, inners, i, start, cells + [cell])
  {}

  lemma BackTail(c: Circuit, inners: seq<Bytes>, i: nat, start: nat, cells: seq<Cell>)
    requires c.Shaped() && i < c.Hops() && c.aead.nonceSize >= 16 && |inners| <= CELL_LIMIT
    requires BackStream(c, inners, i, start, cells) && cells != []
    ensures BackStream(c, inners, i, start + 1, cells[1..])
  {
    forall k | 0 <= k < |cells| - 1
      ensures OnTheWay(c, Backward, AtClient(c, start + 1 + k), inners[start + 1 + k], i, cells[1..][k])
    {
      assert cells[1..][k] == cells[k + 1];
    }
  }

  lemma ValueNext(c: Circuit, i: nat, t: Counter)
    requires c.Shaped() && i < c.Hops() && t + 1 < COUNTER_LIMIT
    ensures Shift(ValueAt(c, i, Forward, t), 1) == ValueAt(c, i, Forward, t + 1)
  {
    var b := c.before[i].forward;
    ShiftAssociates(t, b, 1);
    ShiftAssociates(b, 1, 0);
    ShiftAssociates(t, 1, b);
    assert Shift(t, 1) == t + 1;
  }

  lemma {:induction false} BackNext(offsets: seq<Offsets>, m: Counter, i: nat)
    requires i <= |offsets| && m + 1 < COUNTER_LIMIT
    ensures Shift(BackValue(offsets, m, i), 1) == BackValue(offsets, m + 1, i)
    decreases |offsets| - i
  {
    if i < |offsets| {
      BackNext(offsets, m, i + 1);
      var v, o := BackValue(offsets, m, i + 1), offsets[i].backward;
      ShiftAssociates(v, o, 1);
      ShiftAssociates(o, 1, 0);
      ShiftAssociates(v, 1, o);
    }
  }

  // ------------------------------------------- what each party finds in turn

  lemma RelayTakes(c: Circuit, offsets: seq<Offsets>, pace: seq<Pace>, n: Net, i: nat, refill: Body)
    requires InTurn(c, offsets, pace, n) && i < Last(c) && n.flows[i].alive && n.toHop[i] != []
    requires HopAt(c, offsets, i).Valid()
    ensures var t := TakenOut(n, i);
            var (f, o) := Route(HopAt(c, offsets, i), c.links[i], c.links[i + 1], n.flows[i], n.toHop[i][0], refill);
            && t < |n.inners|
            && f == n.flows[i].(fwd := Turn(ValueAt(c, i, Forward, t + 1), t + 1, true))
            && o.Passed? && OnTheWay(c, Forward, t, n.inners[t], i + 1, o.cell)
  {
    var t := TakenOut(n, i);
    assert TurnAt(c, offsets, n, i);
    OutHead(c, n, i);
    RelayInTurn(c, offsets, n.flows[i], i, n.inners[t], n.toHop[i][0], refill);
  }

  lemma OutHead(c: Circuit, n: Net, i: nat)
    requires c.Shaped() && c.aead.nonceSize >= 16 && |n.inners| <= CELL_LIMIT
    requires i < c.Hops() == |n.flows| == |n.toHop| == |n.heldOut|
    requires OutAt(c, n, i) && n.toHop[i] != []
    ensures var t := TakenOut(n, i);
            t < |n.inners| && OnTheWay(c, Forward, t, n.inners[t], i, n.toHop[i][0])
  {
    assert Outbound(n, i)[0] == n.toHop[i][0];
  }

  lemma BackHead(c: Circuit, n: Net, i: nat)
    requires c.Shaped() && c.aead.nonceSize >= 16 && |n.answerInners| <= CELL_LIMIT
    requires i < c.Hops() == |n.flows| == |n.fromHop| == |n.heldBack|
    requires BackAt(c, n, i) && n.fromHop[i] != []
    ensures var t := TakenBack(n, i);
            t < |n.answerInners| && OnTheWay(c, Backward, AtClient(c, t), n.answerInners[t], i, n.fromHop[i][0])
  {
    assert Inbound(n, i)[0] == n.fromHop[i][0];
  }

  lemma RelayInTurn(c: Circuit, offsets: seq<Offsets>, f: Flow, i: nat, inner: Bytes, cell: Cell, refill: Body)
    requires Chain(c, offsets) && i < Last(c) && f.alive && f.fwd.taken < CELL_LIMIT
    requires f.fwd.seeded ==> f.fwd.next == ValueAt(c, i, Forward, f.fwd.taken)
    requires |inner| == LayerLen(c.Hops(), c.aead.overhead) && HopAt(c, offsets, i).Valid()
    requires OnTheWay(c, Forward, f.fwd.taken, inner, i, cell)
    ensures var t := f.fwd.taken;
            var (f', o) := Route(HopAt(c, offsets, i), c.links[i], c.links[i + 1], f, cell, refill);
            && f' == f.(fwd := Turn(ValueAt(c, i, Forward, t + 1), t + 1, true))
            && o.Passed? && OnTheWay(c, Forward, t, inner, i + 1, o.cell)
  {
    PeelPassesOn(c, offsets, f.fwd.taken, inner, i, cell, refill);
    ValueNext(c, i, f.fwd.taken);
  }

  lemma ExitTakes(c: Circuit, offsets: seq<Offsets>, pace: seq<Pace>, n: Net, refill: Body, answer: Option<Bytes>, pad: Bytes, tail: Body)
    requires InTurn(c, offsets, pace, n) && n.flows[Last(c)].alive && n.toHop[Last(c)] != []
    requires HopAt(c, offsets, Last(c)).Valid() && |pad| == LayerLen(c.Hops(), c.aead.overhead)
    ensures var i, t := Last(c), TakenOut(n, Last(c));
            var f := n.flows[i];
            var (f', o) := RouteExit(HopAt(c, offsets, i), c.links[i], f, n.toHop[i][0], refill, answer, pad, tail);
            && t < |n.inners|
            && f' == f.(fwd := Turn(ValueAt(c, i, Forward, t + 1), t + 1, true), replies := t + 1)
            && o.Answered? && o.message == n.sealed[t] && o.answer == Owed(c, o.message, answer)
            && Frame(o.answer, pad).Ok?
            && OnTheWay(c, Backward, AtClient(c, t), Frame(o.answer, pad).value, i, o.cell)
  {
    var i, t := Last(c), TakenOut(n, Last(c));
    assert TurnAt(c, offsets, n, i);
    OutHead(c, n, i);
    ExitInTurn(c, offsets, n.flows[i], n.sealed[t], n.inners[t], n.toHop[i][0], refill, answer, pad, tail);
  }

  /** The exit on the cell it is due: delivered and answered. */
  lemma ExitInTurn(c: Circuit, offsets: seq<Offsets>, f: Flow, m: Message, inner: Bytes, cell: Cell, refill: Body,
                   answer: Option<Bytes>, pad: Bytes, tail: Body)
    requires Chain(c, offsets) && f.alive && f.replies == f.fwd.taken < CELL_LIMIT
    requires f.fwd.seeded ==> f.fwd.next == ValueAt(c, Last(c), Forward, f.fwd.taken)
    requires Holds(m, inner) && |inner| == LayerLen(c.Hops(), c.aead.overhead)
    requires OnTheWay(c, Forward, f.fwd.taken, inner, Last(c), cell)
    requires HopAt(c, offsets, Last(c)).Valid() && |pad| == LayerLen(c.Hops(), c.aead.overhead)
    ensures var i, t := Last(c), f.fwd.taken;
            var (f', o) := RouteExit(HopAt(c, offsets, i), c.links[i], f, cell, refill, answer, pad, tail);
            && f' == f.(fwd := Turn(ValueAt(c, i, Forward, t + 1), t + 1, true), replies := t + 1)
            && o.Answered? && o.message == m && o.answer == Owed(c, m, answer) && Frame(o.answer, pad).Ok?
            && OnTheWay(c, Backward, AtClient(c, t), Frame(o.answer, pad).value, i, o.cell)
  {
    var i, t := Last(c), f.fwd.taken;
    var hop, reply := HopAt(c, offsets, i), Owed(c, m, answer);
    assert OpenLast(hop, cell, refill) == Ok(m) by { ExitReads(c, offsets, t, m, inner, cell, refill); }
    assert Frame(reply, pad).Ok? && Answering(hop, m, answer, pad) == reply
      by { AnswerFits(c, offsets, hop, m, answer, pad, t, tail); }
    ExitAnswers(c, offsets, t, reply, pad, tail);
    RoutedExit(hop, c.links[i], f, cell, refill, answer, pad, tail, m, reply, SealReply(hop, c.links[i], t, reply, pad, tail).value);
    ValueNext(c, i, t);
  }

  /** The branch of RouteExit a cell takes that opens, is due and is answered. */
  lemma RoutedExit(hop: Hop, inbound: Uint64, f: Flow, cell: Cell, refill: Body, answer: Option<Bytes>, pad: Bytes, tail: Body,
                   m: Message, reply: Message, out: Cell)
    requires hop.Valid() && Lengths(hop.aead) && |pad| == LayerLen(hop.index + 1, hop.aead.overhead)
    requires f.alive && ForCircuit(cell, inbound) && f.replies < CELL_LIMIT
    requires OpenLast(hop, cell, refill) == Ok(m) && Due(f.fwd, HeaderOf(cell).value.counter)
    requires Answering(hop, m, answer, pad) == reply && SealReply(hop, inbound, f.replies, reply, pad, tail) == Ok(out)
    ensures RouteExit(hop, inbound, f, cell, refill, answer, pad, tail)
         == (f.(fwd := Take(f.fwd, HeaderOf(cell).value.counter), replies := f.replies + 1), Answered(m, reply, out))
  {}

  lemma WrapTakes(c: Circuit, offsets: seq<Offsets>, pace: seq<Pace>, n: Net, i: nat, refill: Body)
    requires InTurn(c, offsets, pace, n) && i < Last(c) && n.flows[i].alive && n.fromHop[i + 1] != []
    requires HopAt(c, offsets, i).Valid()
    ensures var t := n.flows[i].bwd.taken;
            t < |n.answerInners| && WrapsOn(c, offsets, n.flows[i], i, n.answerInners[t], n.fromHop[i + 1][0], refill)
  {
    assert TurnAt(c, offsets, n, i);
    BackHead(c, n, i + 1);
    WrapInTurn(c, offsets, n.flows[i], i, n.answerInners[n.flows[i].bwd.taken], n.fromHop[i + 1][0], refill);
  }

  lemma ReturnIs(hop: Hop, inbound: Uint64, f: Flow, cell: Cell, refill: Body, h: Header, out: Cell)
    requires hop.Valid() && Lengths(hop.aead) && f.alive
    requires HeaderOf(cell) == Some(h) && h.kind.Data? && Due(f.bwd, h.counter)
    requires Wrap(hop, cell, inbound, refill) == Ok(out)
    ensures Return(hop, inbound, f, cell, refill) == (f.(bwd := Take(f.bwd, h.counter)), Passed(out))
  {}

  lemma WrapDue(c: Circuit, offsets: seq<Offsets>, f: Flow, i: nat)
    requires Chain(c, offsets) && i < Last(c) && f.bwd.taken < CELL_LIMIT
    requires f.bwd.seeded ==> f.bwd.next == BackValue(offsets, f.bwd.taken, i + 1)
    ensures var t, v := f.bwd.taken, BackValue(offsets, f.bwd.taken, i + 1);
            && ValueAt(c, i + 1, Backward, AtClient(c, t)) == v && Due(f.bwd, v)
            && Take(f.bwd, v) == Turn(BackValue(offsets, t + 1, i + 1), t + 1, true)
  {
    ValueAtIsBackValue(c, offsets, f.bwd.taken, i + 1);
    BackNext(offsets, f.bwd.taken, i + 1);
  }

  /** Hop i takes the reply that is due and sends it on with its own layer. */
  ghost predicate WrapsOn(c: Circuit, offsets: seq<Offsets>, f: Flow, i: nat, inner: Bytes, cell: Cell, refill: Body)
    requires Chain(c, offsets) && i < Last(c) && HopAt(c, offsets, i).Valid() && f.bwd.taken < CELL_LIMIT
  {
    var t := f.bwd.taken;
    var (f', o) := Return(HopAt(c, offsets, i), c.links[i], f, cell, refill);
    && f' == f.(bwd := Turn(BackValue(offsets, t + 1, i + 1), t + 1, true))
    && o.Passed? && OnTheWay(c, Backward, AtClient(c, t), inner, i, o.cell)
  }

  lemma WrapInTurn(c: Circuit, offsets: seq<Offsets>, f: Flow, i: nat, inner: Bytes, cell: Cell, refill: Body)
    requires Chain(c, offsets) && i < Last(c) && f.alive && f.bwd.taken < CELL_LIMIT
    requires f.bwd.seeded ==> f.bwd.next == BackValue(offsets, f.bwd.taken, i + 1)
    requires |inner| == LayerLen(c.Hops(), c.aead.overhead) && HopAt(c, offsets, i).Valid()
    requires OnTheWay(c, Backward, AtClient(c, f.bwd.taken), inner, i + 1, cell)
    ensures WrapsOn(c, offsets, f, i, inner, cell, refill)
  {
    var t, hop := f.bwd.taken, HopAt(c, offsets, i);
    WrapPassesOn(c, offsets, t, inner, i, cell, refill);
    WrapDue(c, offsets, f, i);
    ReturnIs(hop, c.links[i], f, cell, refill, Header(Data, c.links[i + 1], BackValue(offsets, t, i + 1)),
             Wrap(hop, cell, c.links[i], refill).value);
  }

  /** The reply at the head of the client's link is never one it would refuse. */
  lemma ClientTakes(c: Circuit, offsets: seq<Offsets>, pace: seq<Pace>, n: Net)
    requires InTurn(c, offsets, pace, n) && n.fromHop[0] != []
    ensures var t := |n.talk.accepted|;
            t < |n.answers| && Check(c, n.fromHop[0][0], t, n.talk.sent) == Ok(n.answers[t])
  {
    var t, cell := |n.talk.accepted|, n.fromHop[0][0];
    assert TurnAt(c, offsets, n, Last(c));
    BackHead(c, n, 0);
    ClientReads(c, offsets, t, n.answers[t], n.answerInners[t], cell);
    ReplyNumberRecovers(c, offsets, t);
  }

  // ------------------------------------------------------ every move keeps it

  lemma WriteKeeps(c: Circuit, offsets: seq<Offsets>, pace: seq<Pace>, n: Net, m: Message, pad: Bytes)
    requires InTurn(c, offsets, pace, n) && Allowed(c, Write(m, pad))
    ensures InTurn(c, offsets, pace, Go(c, offsets, pace, n, Write(m, pad)))
  {
    var n' := Go(c, offsets, pace, n, Write(m, pad));
    var sent := SendOne(c, n.talk, m, pad).1;
    if sent.Ok? {
      FrameFits(c, offsets, m, pad);
      FramedHolds(m, pad);
      SealedSetsOut(c, offsets, n.talk.sent, m, pad);
      forall i | 0 <= i < c.Hops() ensures OutAt(c, n', i) {
        WrittenOut(c, n, n', Frame(m, pad).value, sent.value, i);
      }
      forall i | 0 <= i < c.Hops() ensures BackAt(c, n', i) && TurnAt(c, offsets, n', i) {
        assert TurnAt(c, offsets, n, i);
        SameBack(c, n, n', i);
      }
    }
  }

  lemma WrittenOut(c: Circuit, n: Net, n': Net, inner: Bytes, cell: Cell, i: nat)
    requires c.Shaped() && c.aead.nonceSize >= 16 && |n.inners| < CELL_LIMIT
    requires i < c.Hops() == |n.flows| == |n.toHop| == |n.heldOut|
    requires n'.flows == n.flows && n'.heldOut == n.heldOut
    requires n'.inners == n.inners + [inner] && n'.toHop == n.toHop[0 := n.toHop[0] + [cell]]
    requires OnTheWay(c, Forward, |n.inners|, inner, 0, cell)
    requires OutAt(c, n, i)
    ensures OutAt(c, n', i)
  {
    assert OutStream(c, n'.inners, i, TakenOut(n, i), Outbound(n, i));
    if i == 0 {
      OutSnoc(c, n'.inners, 0, TakenOut(n, 0), Outbound(n, 0), cell);
    } else {
      assert Outbound(n', i) == Outbound(n, i);
    }
  }

  /** A hop takes a cell and sends it off, or ends the circuit with it in hand. */
  ghost predicate Relayed(c: Circuit, n: Net, n': Net, i: nat, cell: Cell)
    requires c.Shaped() && i + 1 < c.Hops()
    requires |n.flows| == |n.toHop| == |n.heldOut| == c.Hops()
    requires |n'.flows| == |n'.toHop| == |n'.heldOut| == c.Hops()
    requires TakenOut(n, i) + 1 < COUNTER_LIMIT && Outbound(n, i) != []
  {
    var f, f', t := n.flows[i], n'.flows[i], TakenOut(n, i);
    && n' == n.(toHop := n'.toHop, heldOut := n'.heldOut, flows := n.flows[i := f'])
    && f' == f.(fwd := Turn(ValueAt(c, i, Forward, t + 1), t + 1, true), alive := f'.alive)
    && (f'.alive ==> f.alive)
    && Outbound(n', i) == Outbound(n, i)[1..]
    && (|| Outbound(n', i + 1) == Outbound(n, i + 1) + [cell]
        || (!f'.alive && Outbound(n', i + 1) == Outbound(n, i + 1)))
    && forall j :: 0 <= j < c.Hops() && j != i && j != i + 1 ==> Outbound(n', j) == Outbound(n, j)
  }

  lemma RelayedKeeps(c: Circuit, offsets: seq<Offsets>, pace: seq<Pace>, n: Net, n': Net, i: nat, cell: Cell)
    requires InTurn(c, offsets, pace, n) && Sized(c, pace, n') && i < Last(c) && n.flows[i].alive
    requires TakenOut(n, i) < |n.inners| && Outbound(n, i) != [] && Relayed(c, n, n', i, cell)
    requires OnTheWay(c, Forward, TakenOut(n, i), n.inners[TakenOut(n, i)], i + 1, cell)
    ensures InTurn(c, offsets, pace, n')
  {
    forall j | 0 <= j < c.Hops() ensures OutAt(c, n', j) {
      RelayedOut(c, n, n', i, cell, j);
    }
    forall j | 0 <= j < c.Hops() ensures BackAt(c, n', j) {
      SameBack(c, n, n', j);
    }
    forall j | 0 <= j < c.Hops() ensures TurnAt(c, offsets, n', j) {
      assert TurnAt(c, offsets, n, j);
    }
  }

  /** Off the two queues that changed, nothing did. */
  lemma OutElsewhere(c: Circuit, n: Net, n': Net, i: nat, cell: Cell, j: nat)
    requires c.Shaped() && c.aead.nonceSize >= 16 && |n.inners| <= CELL_LIMIT && i + 1 < c.Hops() && j < c.Hops()
    requires |n.flows| == |n.toHop| == |n.heldOut| == c.Hops()
    requires |n'.flows| == |n'.toHop| == |n'.heldOut| == c.Hops()
    requires TakenOut(n, i) < |n.inners| && Outbound(n, i) != [] && Relayed(c, n, n', i, cell)
    requires OutAt(c, n, j) && j != i && j != i + 1
    ensures OutAt(c, n', j)
  {
    assert Outbound(n', j) == Outbound(n, j) && TakenOut(n', j) == TakenOut(n, j);
  }

  lemma OutLeft(c: Circuit, n: Net, n': Net, i: nat, cell: Cell)
    requires c.Shaped() && c.aead.nonceSize >= 16 && |n.inners| <= CELL_LIMIT && i + 1 < c.Hops()
    requires |n.flows| == |n.toHop| == |n.heldOut| == c.Hops()
    requires |n'.flows| == |n'.toHop| == |n'.heldOut| == c.Hops()
    requires TakenOut(n, i) < |n.inners| && Outbound(n, i) != [] && Relayed(c, n, n', i, cell)
    requires OutAt(c, n, i)
    ensures OutAt(c, n', i)
  {
    OutTail(c, n.inners, i, TakenOut(n, i), Outbound(n, i));
    assert TakenOut(n', i) == TakenOut(n, i) + 1 && Outbound(n', i) == Outbound(n, i)[1..];
  }

  lemma OutArrived(c: Circuit, n: Net, n': Net, i: nat, cell: Cell)
    requires c.Shaped() && c.aead.nonceSize >= 16 && |n.inners| <= CELL_LIMIT && i + 1 < c.Hops()
    requires |n.flows| == |n.toHop| == |n.heldOut| == c.Hops()
    requires |n'.flows| == |n'.toHop| == |n'.heldOut| == c.Hops()
    requires TakenOut(n, i) < |n.inners| && Outbound(n, i) != [] && Relayed(c, n, n', i, cell) && n.flows[i].alive
    requires OnTheWay(c, Forward, TakenOut(n, i), n.inners[TakenOut(n, i)], i + 1, cell)
    requires OutAt(c, n, i + 1)
    ensures OutAt(c, n', i + 1)
  {
    var j := i + 1;
    OutSnoc(c, n.inners, j, TakenOut(n, j), Outbound(n, j), cell);
    assert TakenOut(n', j) == TakenOut(n, j) && TakenOut(n', i) == TakenOut(n, i) + 1;
  }

  lemma RelayedOut(c: Circuit, n: Net, n': Net, i: nat, cell: Cell, j: nat)
    requires c.Shaped() && c.aead.nonceSize >= 16 && |n.inners| <= CELL_LIMIT && i + 1 < c.Hops() && j < c.Hops()
    requires |n.flows| == |n.toHop| == |n.heldOut| == c.Hops()
    requires |n'.flows| == |n'.toHop| == |n'.heldOut| == c.Hops()
    requires TakenOut(n, i) < |n.inners| && Outbound(n, i) != [] && Relayed(c, n, n', i, cell) && n.flows[i].alive
    requires OnTheWay(c, Forward, TakenOut(n, i), n.inners[TakenOut(n, i)], i + 1, cell)
    requires OutAt(c, n, j)
    ensures OutAt(c, n', j)
  {
    if j == i {
      OutLeft(c, n, n', i, cell);
    } else if j == i + 1 {
      OutArrived(c, n, n', i, cell);
    } else {
      OutElsewhere(c, n, n', i, cell, j);
    }
  }

  lemma SameBack(c: Circuit, n: Net, n': Net, j: nat)
    requires c.Shaped() && c.aead.nonceSize >= 16 && |n.answerInners| <= CELL_LIMIT && j < c.Hops()
    requires |n.flows| == |n.fromHop| == |n.heldBack| == c.Hops() == |n'.flows| == |n'.fromHop| == |n'.heldBack|
    requires Inbound(n', j) == Inbound(n, j) && n'.answerInners == n.answerInners
    requires n'.answers == n.answers && n'.talk.accepted == n.talk.accepted
    requires forall k :: 0 <= k < c.Hops() ==>
               n'.flows[k].bwd == n.flows[k].bwd && (n'.flows[k].alive ==> n.flows[k].alive)
    requires BackAt(c, n, j)
    ensures BackAt(c, n', j)
  {}

  lemma SentOn(c: Circuit, pace: seq<Pace>, n: Net, i: nat, f: Flow, cell: Cell)
    requires c.Shaped() && Sized(c, pace, n) && i + 1 < c.Hops() && n.toHop[i] != []
    requires TakenOut(n, i) + 1 < COUNTER_LIMIT && n.flows[i].alive
    requires f == n.flows[i].(fwd := Turn(ValueAt(c, i, Forward, TakenOut(n, i) + 1), TakenOut(n, i) + 1, true))
    ensures Outbound(n, i) != []
    ensures var n' := SendOn(pace, n.(toHop := n.toHop[i := n.toHop[i][1..]], flows := n.flows[i := f]), i, f, cell);
            Sized(c, pace, n') && Relayed(c, n, n', i, cell)
  {
    var n' := SendOn(pace, n.(toHop := n.toHop[i := n.toHop[i][1..]], flows := n.flows[i := f]), i, f, cell);
    assert Outbound(n', i) == Outbound(n, i)[1..];
    if pace[i].AtOnce? {
      assert Outbound(n', i + 1) == Outbound(n, i + 1) + [cell];
    } else if |n.heldOut[i]| < pace[i].size {
      assert Outbound(n', i + 1) == Outbound(n, i + 1) + [cell];
    }
  }

  lemma RelayKeeps(c: Circuit, offsets: seq<Offsets>, pace: seq<Pace>, n: Net, i: nat, refill: Body)
    requires InTurn(c, offsets, pace, n) && Allowed(c, Relay(i, refill))
    ensures InTurn(c, offsets, pace, Go(c, offsets, pace, n, Relay(i, refill)))
  {
    var n' := Go(c, offsets, pace, n, Relay(i, refill));
    if n.flows[i].alive && n.toHop[i] != [] {
      HopsFit(c, offsets);
      RelayTakes(c, offsets, pace, n, i, refill);
      var o := Route(HopAt(c, offsets, i), c.links[i], c.links[i + 1], n.flows[i], n.toHop[i][0], refill).1;
      var f := n.flows[i].(fwd := Turn(ValueAt(c, i, Forward, TakenOut(n, i) + 1), TakenOut(n, i) + 1, true));
      SentOn(c, pace, n, i, f, o.cell);
      assert n' == SendOn(pace, n.(toHop := n.toHop[i := n.toHop[i][1..]], flows := n.flows[i := f]), i, f, o.cell);
      RelayedKeeps(c, offsets, pace, n, n', i, o.cell);
    }
  }

  lemma OutTickKeeps(c: Circuit, offsets: seq<Offsets>, pace: seq<Pace>, n: Net, i: nat)
    requires InTurn(c, offsets, pace, n) && Allowed(c, OutTick(i))
    ensures InTurn(c, offsets, pace, Go(c, offsets, pace, n, OutTick(i)))
  {
    var n' := Go(c, offsets, pace, n, OutTick(i));
    if n.flows[i].alive && n.heldOut[i] != [] {
      forall j | 0 <= j < c.Hops() ensures OutAt(c, n', j) {
        assert Outbound(n', j) == Outbound(n, j);
        SameOut(c, n, n', j);
      }
      forall j | 0 <= j < c.Hops() ensures BackAt(c, n', j) && TurnAt(c, offsets, n', j) {
        assert TurnAt(c, offsets, n, j);
        SameBack(c, n, n', j);
      }
    }
  }

  /** A hop sends a reply off, or ends the circuit with it in hand; n has the books already closed. */
  lemma SentBackKeeps(c: Circuit, n: Net, pace: seq<Pace>, i: nat, cell: Cell)
    requires i < |pace| == |n.flows| == |n.fromHop| == |n.heldBack|
    requires pace[i].AtOnce? ==> n.heldBack[i] == []
    ensures var n' := SendBack(c, pace, n, i, n.flows[i], cell);
            && n' == n.(fromHop := n'.fromHop, heldBack := n'.heldBack, flows := n'.flows)
            && |n'.fromHop| == |n'.heldBack| == |n'.flows| == |pace|
            && (forall j :: 0 <= j < |pace| && j != i ==>
                  n'.flows[j] == n.flows[j] && Inbound(n', j) == Inbound(n, j) && n'.heldBack[j] == n.heldBack[j])
            && (pace[i].AtOnce? ==> n'.heldBack[i] == [])
            && n'.flows[i] == n.flows[i].(alive := n'.flows[i].alive) && (n'.flows[i].alive ==> n.flows[i].alive)
            && (|| Inbound(n', i) == Inbound(n, i) + [cell]
                || (!n'.flows[i].alive && Inbound(n', i) == Inbound(n, i)))
  {
    var n' := SendBack(c, pace, n, i, n.flows[i], cell);
    if pace[i].AtOnce? {
      assert Inbound(n', i) == Inbound(n, i) + [cell];
    } else if |n.heldBack[i]| < pace[i].size {
      assert Inbound(n', i) == Inbound(n, i) + [cell];
    }
  }

  /** The exit takes a cell, numbers its answer, and sends it off or ends the circuit. */
  ghost predicate AnsweredTo(c: Circuit, n: Net, n': Net, reply: Message, inner: Bytes, cell: Cell)
    requires c.Shaped() && c.Hops() >= 1
    requires |n.flows| == |n.toHop| == |n.heldOut| == |n.fromHop| == |n.heldBack| == c.Hops()
    requires |n'.flows| == |n'.toHop| == |n'.heldOut| == |n'.fromHop| == |n'.heldBack| == c.Hops()
    requires TakenOut(n, Last(c)) + 1 < COUNTER_LIMIT && n.toHop[Last(c)] != []
  {
    var i, t := Last(c), TakenOut(n, Last(c));
    var f, f' := n.flows[i], n'.flows[i];
    && n' == n.(toHop := n.toHop[i := n.toHop[i][1..]], flows := n.flows[i := f'],
                answers := n.answers + [reply], answerInners := n.answerInners + [inner],
                fromHop := n'.fromHop, heldBack := n'.heldBack)
    && f' == f.(fwd := Turn(ValueAt(c, i, Forward, t + 1), t + 1, true), replies := t + 1, alive := f'.alive)
    && (f'.alive ==> f.alive)
    && (|| Inbound(n', i) == Inbound(n, i) + [cell]
        || (!f'.alive && Inbound(n', i) == Inbound(n, i)))
    && forall j :: 0 <= j < c.Hops() && j != i ==> Inbound(n', j) == Inbound(n, j)
  }

  lemma AnsweredOut(c: Circuit, n: Net, n': Net, reply: Message, inner: Bytes, cell: Cell, j: nat)
    requires c.Shaped() && c.aead.nonceSize >= 16 && j < c.Hops() && |n.inners| <= CELL_LIMIT
    requires |n.flows| == |n.toHop| == |n.heldOut| == |n.fromHop| == |n.heldBack| == c.Hops()
    requires |n'.flows| == |n'.toHop| == |n'.heldOut| == |n'.fromHop| == |n'.heldBack| == c.Hops()
    requires TakenOut(n, Last(c)) < |n.inners| && n.toHop[Last(c)] != [] && AnsweredTo(c, n, n', reply, inner, cell)
    requires OutAt(c, n, j)
    ensures OutAt(c, n', j)
  {
    if j == Last(c) {
      OutTail(c, n.inners, j, TakenOut(n, j), Outbound(n, j));
      assert Outbound(n', j) == Outbound(n, j)[1..] && TakenOut(n', j) == TakenOut(n, j) + 1;
    } else {
      assert Outbound(n', j) == Outbound(n, j) && TakenOut(n', j) == TakenOut(n, j);
    }
  }

  lemma AnsweredBack(c: Circuit, n: Net, n': Net, reply: Message, inner: Bytes, cell: Cell, j: nat)
    requires c.Shaped() && c.aead.nonceSize >= 16 && j < c.Hops()
    requires |n.answers| == |n.answerInners| < CELL_LIMIT
    requires |n.flows| == |n.toHop| == |n.heldOut| == |n.fromHop| == |n.heldBack| == c.Hops()
    requires |n'.flows| == |n'.toHop| == |n'.heldOut| == |n'.fromHop| == |n'.heldBack| == c.Hops()
    requires TakenOut(n, Last(c)) + 1 < COUNTER_LIMIT && n.toHop[Last(c)] != []
    requires AnsweredTo(c, n, n', reply, inner, cell) && n.flows[Last(c)].alive
    requires OnTheWay(c, Backward, AtClient(c, |n.answerInners|), inner, Last(c), cell)
    requires BackAt(c, n, j)
    ensures BackAt(c, n', j)
  {
    assert BackStream(c, n'.answerInners, j, TakenBack(n, j), Inbound(n, j));
    if j == Last(c) && Inbound(n', j) != Inbound(n, j) {
      BackSnoc(c, n'.answerInners, j, TakenBack(n, j), Inbound(n, j), cell);
    }
  }

  lemma AnsweredKeepsTurn(c: Circuit, offsets: seq<Offsets>, pace: seq<Pace>, n: Net, n': Net, reply: Message, inner: Bytes, cell: Cell)
    requires InTurn(c, offsets, pace, n) && Sized(c, pace, n') && n.flows[Last(c)].alive && n.toHop[Last(c)] != []
    requires TakenOut(n, Last(c)) < |n.inners| && AnsweredTo(c, n, n', reply, inner, cell)
    requires Holds(reply, inner) && |inner| == LayerLen(c.Hops(), c.aead.overhead)
    requires OnTheWay(c, Backward, AtClient(c, TakenOut(n, Last(c))), inner, Last(c), cell)
    ensures InTurn(c, offsets, pace, n')
  {
    assert TurnAt(c, offsets, n, Last(c));
    forall j | 0 <= j < c.Hops() ensures OutAt(c, n', j) {
      AnsweredOut(c, n, n', reply, inner, cell, j);
    }
    forall j | 0 <= j < c.Hops() ensures BackAt(c, n', j) {
      AnsweredBack(c, n, n', reply, inner, cell, j);
    }
    forall j | 0 <= j < c.Hops() ensures TurnAt(c, offsets, n', j) {
      assert TurnAt(c, offsets, n, j);
    }
  }

  /** The exit's books after one answer. */
  ghost function AnsweredNet(c: Circuit, pace: seq<Pace>, n: Net, f: Flow, reply: Message, inner: Bytes, cell: Cell): Net
    requires c.Shaped() && c.Hops() >= 1 && Sized(c, pace, n) && n.toHop[Last(c)] != []
  {
    var i := Last(c);
    var booked := n.(toHop := n.toHop[i := n.toHop[i][1..]], flows := n.flows[i := f],
                     answers := n.answers + [reply], answerInners := n.answerInners + [inner]);
    SendBack(c, pace, booked, i, f, cell)
  }

  lemma AnswerGoes(c: Circuit, offsets: seq<Offsets>, pace: seq<Pace>, n: Net, refill: Body, answer: Option<Bytes>, pad: Bytes, tail: Body)
    requires Chain(c, offsets) && Sized(c, pace, n) && Allowed(c, Answer(refill, answer, pad, tail))
    requires n.flows[Last(c)].alive && n.toHop[Last(c)] != [] && HopAt(c, offsets, Last(c)).Valid()
    ensures var (f, o) := RouteExit(HopAt(c, offsets, Last(c)), c.links[Last(c)], n.flows[Last(c)], n.toHop[Last(c)][0], refill, answer, pad, tail);
            o.Answered? && Frame(o.answer, pad).Ok? ==>
              Go(c, offsets, pace, n, Answer(refill, answer, pad, tail)) == AnsweredNet(c, pace, n, f, o.answer, Frame(o.answer, pad).value, o.cell)
  {}

  lemma Booked(c: Circuit, pace: seq<Pace>, n: Net, f: Flow, reply: Message, inner: Bytes, cell: Cell)
    requires c.Shaped() && c.Hops() >= 1 && Sized(c, pace, n) && |n.answers| < CELL_LIMIT
    requires TakenOut(n, Last(c)) + 1 < COUNTER_LIMIT && n.flows[Last(c)].alive && n.toHop[Last(c)] != []
    requires var t := TakenOut(n, Last(c));
             f == n.flows[Last(c)].(fwd := Turn(ValueAt(c, Last(c), Forward, t + 1), t + 1, true), replies := t + 1)
    ensures var n' := AnsweredNet(c, pace, n, f, reply, inner, cell);
            Sized(c, pace, n') && AnsweredTo(c, n, n', reply, inner, cell)
  {
    var i := Last(c);
    var booked := n.(toHop := n.toHop[i := n.toHop[i][1..]], flows := n.flows[i := f],
                     answers := n.answers + [reply], answerInners := n.answerInners + [inner]);
    SentBackKeeps(c, booked, pace, i, cell);
    assert forall j :: 0 <= j < c.Hops() ==> Inbound(booked, j) == Inbound(n, j);
  }

  lemma AnswerKeeps(c: Circuit, offsets: seq<Offsets>, pace: seq<Pace>, n: Net, refill: Body, answer: Option<Bytes>, pad: Bytes, tail: Body)
    requires InTurn(c, offsets, pace, n) && Allowed(c, Answer(refill, answer, pad, tail))
    ensures InTurn(c, offsets, pace, Go(c, offsets, pace, n, Answer(refill, answer, pad, tail)))
  {
    var i := Last(c);
    var n' := Go(c, offsets, pace, n, Answer(refill, answer, pad, tail));
    if n.flows[i].alive && n.toHop[i] != [] {
      HopsFit(c, offsets);
      AnswerGoes(c, offsets, pace, n, refill, answer, pad, tail);
      ExitTakes(c, offsets, pace, n, refill, answer, pad, tail);
      var (f, o) := RouteExit(HopAt(c, offsets, i), c.links[i], n.flows[i], n.toHop[i][0], refill, answer, pad, tail);
      var inner := Frame(o.answer, pad).value;
      assert TurnAt(c, offsets, n, i);
      Booked(c, pace, n, f, o.answer, inner, o.cell);
      FramedHolds(o.answer, pad);
      AnsweredKeepsTurn(c, offsets, pace, n, n', o.answer, inner, o.cell);
    }
  }

  /** A hop takes a reply, adds its layer, and sends it off or ends the circuit. */
  ghost predicate Wrapped(c: Circuit, offsets: seq<Offsets>, n: Net, n': Net, i: nat, cell: Cell)
    requires c.Shaped() && i + 1 < c.Hops() == |offsets|
    requires |n.flows| == |n.fromHop| == |n.heldBack| == c.Hops()
    requires |n'.flows| == |n'.fromHop| == |n'.heldBack| == c.Hops()
    requires n.flows[i].bwd.taken + 1 < COUNTER_LIMIT && Inbound(n, i + 1) != []
  {
    var f, f', t := n.flows[i], n'.flows[i], n.flows[i].bwd.taken;
    && n' == n.(flows := n.flows[i := f'], fromHop := n'.fromHop, heldBack := n'.heldBack)
    && f' == f.(bwd := Turn(BackValue(offsets, t + 1, i + 1), t + 1, true), alive := f'.alive)
    && (f'.alive ==> f.alive)
    && Inbound(n', i + 1) == Inbound(n, i + 1)[1..]
    && (|| Inbound(n', i) == Inbound(n, i) + [cell]
        || (!f'.alive && Inbound(n', i) == Inbound(n, i)))
    && forall j :: 0 <= j < c.Hops() && j != i && j != i + 1 ==> Inbound(n', j) == Inbound(n, j)
  }

  lemma WrappedBack(c: Circuit, offsets: seq<Offsets>, n: Net, n': Net, i: nat, cell: Cell, j: nat)
    requires c.Shaped() && c.aead.nonceSize >= 16 && i + 1 < c.Hops() == |offsets| && j < c.Hops()
    requires |n.answers| == |n.answerInners| <= CELL_LIMIT
    requires |n.flows| == |n.fromHop| == |n.heldBack| == c.Hops()
    requires |n'.flows| == |n'.fromHop| == |n'.heldBack| == c.Hops()
    requires n.flows[i].bwd.taken < |n.answerInners| && Inbound(n, i + 1) != [] && n.flows[i].alive
    requires Wrapped(c, offsets, n, n', i, cell)
    requires OnTheWay(c, Backward, AtClient(c, n.flows[i].bwd.taken), n.answerInners[n.flows[i].bwd.taken], i, cell)
    requires BackAt(c, n, j)
    ensures BackAt(c, n', j)
  {
    if j == i + 1 {
      BackTail(c, n.answerInners, j, TakenBack(n, j), Inbound(n, j));
    } else if j == i && Inbound(n', i) != Inbound(n, i) {
      BackSnoc(c, n.answerInners, j, TakenBack(n, j), Inbound(n, j), cell);
    }
  }

  /** A move that leaves the way out alone, save for hops that end. */
  lemma SameOut(c: Circuit, n: Net, n': Net, j: nat)
    requires c.Shaped() && c.aead.nonceSize >= 16 && |n.inners| <= CELL_LIMIT && j < c.Hops()
    requires |n.flows| == |n.toHop| == |n.heldOut| == c.Hops() == |n'.flows| == |n'.toHop| == |n'.heldOut|
    requires Outbound(n', j) == Outbound(n, j) && n'.inners == n.inners
    requires forall k :: 0 <= k < c.Hops() ==>
               n'.flows[k].fwd == n.flows[k].fwd && (n'.flows[k].alive ==> n.flows[k].alive)
    requires OutAt(c, n, j)
    ensures OutAt(c, n', j)
  {}

  lemma WrappedKeeps(c: Circuit, offsets: seq<Offsets>, pace: seq<Pace>, n: Net, n': Net, i: nat, cell: Cell)
    requires InTurn(c, offsets, pace, n) && Sized(c, pace, n') && i < Last(c) && n.flows[i].alive
    requires n.flows[i].bwd.taken < |n.answerInners| && Inbound(n, i + 1) != []
    requires Wrapped(c, offsets, n, n', i, cell)
    requires OnTheWay(c, Backward, AtClient(c, n.flows[i].bwd.taken), n.answerInners[n.flows[i].bwd.taken], i, cell)
    ensures InTurn(c, offsets, pace, n')
  {
    forall j | 0 <= j < c.Hops() ensures OutAt(c, n', j) {
      SameOut(c, n, n', j);
    }
    forall j | 0 <= j < c.Hops() ensures BackAt(c, n', j) {
      WrappedBack(c, offsets, n, n', i, cell, j);
    }
    forall j | 0 <= j < c.Hops() ensures TurnAt(c, offsets, n', j) {
      assert TurnAt(c, offsets, n, j);
    }
  }

  lemma {:induction false} WrapBooked(c: Circuit, offsets: seq<Offsets>, pace: seq<Pace>, n: Net, i: nat, f: Flow, cell: Cell)
    requires c.Shaped() && i + 1 < c.Hops() == |offsets| && Sized(c, pace, n)
    requires n.flows[i].bwd.taken + 1 < COUNTER_LIMIT && n.flows[i].alive && n.fromHop[i + 1] != []
    requires var t := n.flows[i].bwd.taken;
             f == n.flows[i].(bwd := Turn(BackValue(offsets, t + 1, i + 1), t + 1, true))
    ensures Inbound(n, i + 1) != []
    ensures var booked := n.(fromHop := n.fromHop[i + 1 := n.fromHop[i + 1][1..]], flows := n.flows[i := f]);
            var n' := SendBack(c, pace, booked, i, f, cell);
            Sized(c, pace, n') && Wrapped(c, offsets, n, n', i, cell)
  {
    var booked := n.(fromHop := n.fromHop[i + 1 := n.fromHop[i + 1][1..]], flows := n.flows[i := f]);
    SentBackKeeps(c, booked, pace, i, cell);
    assert Inbound(booked, i + 1) == Inbound(n, i + 1)[1..];
    assert forall j :: 0 <= j < c.Hops() && j != i + 1 ==> Inbound(booked, j) == Inbound(n, j);
  }

  lemma WrappingKeeps(c: Circuit, offsets: seq<Offsets>, pace: seq<Pace>, n: Net, i: nat, refill: Body)
    requires InTurn(c, offsets, pace, n) && Allowed(c, Wrapping(i, refill))
    ensures InTurn(c, offsets, pace, Go(c, offsets, pace, n, Wrapping(i, refill)))
  {
    var n' := Go(c, offsets, pace, n, Wrapping(i, refill));
    if n.flows[i].alive && n.fromHop[i + 1] != [] {
      HopsFit(c, offsets);
      WrapTakes(c, offsets, pace, n, i, refill);
      var (f, o) := Return(HopAt(c, offsets, i), c.links[i], n.flows[i], n.fromHop[i + 1][0], refill);
      WrapBooked(c, offsets, pace, n, i, f, o.cell);
      WrappedKeeps(c, offsets, pace, n, n', i, o.cell);
    }
  }

  lemma BackTickKeeps(c: Circuit, offsets: seq<Offsets>, pace: seq<Pace>, n: Net, i: nat)
    requires InTurn(c, offsets, pace, n) && Allowed(c, BackTick(i))
    ensures InTurn(c, offsets, pace, Go(c, offsets, pace, n, BackTick(i)))
  {
    var n' := Go(c, offsets, pace, n, BackTick(i));
    if n.flows[i].alive && n.heldBack[i] != [] {
      forall j | 0 <= j < c.Hops() ensures BackAt(c, n', j) {
        assert Inbound(n', j) == Inbound(n, j);
        SameBack(c, n, n', j);
      }
      forall j | 0 <= j < c.Hops() ensures OutAt(c, n', j) && TurnAt(c, offsets, n', j) {
        assert TurnAt(c, offsets, n, j);
        SameOut(c, n, n', j);
      }
    }
  }

  lemma ReadKeeps(c: Circuit, offsets: seq<Offsets>, pace: seq<Pace>, n: Net)
    requires InTurn(c, offsets, pace, n)
    ensures InTurn(c, offsets, pace, Go(c, offsets, pace, n, Read))
  {
    var n' := Go(c, offsets, pace, n, Read);
    if n.fromHop[0] != [] {
      ClientTakes(c, offsets, pace, n);
      forall j | 0 <= j < c.Hops() ensures BackAt(c, n', j) {
        ReadBack(c, n, n', j);
      }
      forall j | 0 <= j < c.Hops() ensures OutAt(c, n', j) && TurnAt(c, offsets, n', j) {
        assert TurnAt(c, offsets, n, j);
        SameOut(c, n, n', j);
      }
    }
  }

  lemma ReadBack(c: Circuit, n: Net, n': Net, j: nat)
    requires c.Shaped() && c.aead.nonceSize >= 16 && j < c.Hops()
    requires |n.answers| == |n.answerInners| <= CELL_LIMIT
    requires |n.flows| == |n.fromHop| == |n.heldBack| == c.Hops() && n.fromHop[0] != []
    requires n' == n.(talk := n'.talk, fromHop := n.fromHop[0 := n.fromHop[0][1..]])
    requires |n'.talk.accepted| == |n.talk.accepted| + 1
    requires BackAt(c, n, j)
    ensures BackAt(c, n', j)
  {
    if j == 0 {
      BackTail(c, n.answerInners, 0, TakenBack(n, 0), Inbound(n, 0));
      assert Inbound(n', 0) == Inbound(n, 0)[1..];
    } else {
      assert Inbound(n', j) == Inbound(n, j);
    }
  }

  lemma EndedOut(c: Circuit, n: Net, n': Net, i: nat, j: nat)
    requires c.Shaped() && c.aead.nonceSize >= 16 && |n.inners| <= CELL_LIMIT && i < c.Hops() && j < c.Hops()
    requires |n.flows| == |n.toHop| == |n.heldOut| == |n.heldBack| == c.Hops()
    requires n' == n.(flows := n.flows[i := n.flows[i].(alive := false)],
                      heldOut := n.heldOut[i := []], heldBack := n.heldBack[i := []])
    requires OutAt(c, n, j)
    ensures OutAt(c, n', j)
  {
    assert Outbound(n', j) <= Outbound(n, j);
  }

  lemma EndedBack(c: Circuit, n: Net, n': Net, i: nat, j: nat)
    requires c.Shaped() && c.aead.nonceSize >= 16 && |n.answerInners| <= CELL_LIMIT && i < c.Hops() && j < c.Hops()
    requires |n.flows| == |n.fromHop| == |n.heldOut| == |n.heldBack| == c.Hops()
    requires n' == n.(flows := n.flows[i := n.flows[i].(alive := false)],
                      heldOut := n.heldOut[i := []], heldBack := n.heldBack[i := []])
    requires BackAt(c, n, j)
    ensures BackAt(c, n', j)
  {
    assert Inbound(n', j) <= Inbound(n, j);
  }

  /** A hop that ends loses what it held, which is the end of what it had sent off. */
  lemma EndKeeps(c: Circuit, offsets: seq<Offsets>, pace: seq<Pace>, n: Net, i: nat)
    requires InTurn(c, offsets, pace, n) && Allowed(c, End(i))
    ensures InTurn(c, offsets, pace, Go(c, offsets, pace, n, End(i)))
  {
    var n' := Go(c, offsets, pace, n, End(i));
    forall j | 0 <= j < c.Hops() ensures OutAt(c, n', j) {
      EndedOut(c, n, n', i, j);
    }
    forall j | 0 <= j < c.Hops() ensures BackAt(c, n', j) {
      EndedBack(c, n, n', i, j);
    }
    forall j | 0 <= j < c.Hops() ensures TurnAt(c, offsets, n', j) {
      assert TurnAt(c, offsets, n, j);
    }
  }

  lemma GoKeeps(c: Circuit, offsets: seq<Offsets>, pace: seq<Pace>, n: Net, a: Move)
    requires InTurn(c, offsets, pace, n) && Allowed(c, a)
    ensures InTurn(c, offsets, pace, Go(c, offsets, pace, n, a))
  {
    match a
    case Write(m, pad) => WriteKeeps(c, offsets, pace, n, m, pad);
    case Relay(i, refill) => RelayKeeps(c, offsets, pace, n, i, refill);
    case OutTick(i) => OutTickKeeps(c, offsets, pace, n, i);
    case Answer(refill, answer, pad, tail) => AnswerKeeps(c, offsets, pace, n, refill, answer, pad, tail);
    case Wrapping(i, refill) => WrappingKeeps(c, offsets, pace, n, i, refill);
    case BackTick(i) => BackTickKeeps(c, offsets, pace, n, i);
    case Read => ReadKeeps(c, offsets, pace, n);
    case End(i) => EndKeeps(c, offsets, pace, n, i);
  }

  lemma StartHolds(c: Circuit, offsets: seq<Offsets>, pace: seq<Pace>)
    requires Chain(c, offsets) && |pace| == c.Hops()
    ensures InTurn(c, offsets, pace, Start(c))
  {
    var n := Start(c);
    DueIsNext(c, offsets, 0);
    forall j | 0 <= j < c.Hops() ensures OutAt(c, n, j) && BackAt(c, n, j) {
      assert Outbound(n, j) == [] && Inbound(n, j) == [];
    }
  }

  ghost function Course(c: Circuit, offsets: seq<Offsets>, pace: seq<Pace>, moves: seq<Move>): (n: Net)
    requires Chain(c, offsets) && |pace| == c.Hops() && forall a :: a in moves ==> Allowed(c, a)
    ensures InTurn(c, offsets, pace, n)
  {
    if moves == [] then
      StartHolds(c, offsets, pace);
      Start(c)
    else
      var n := Course(c, offsets, pace, moves[..|moves| - 1]);
      GoKeeps(c, offsets, pace, n, moves[|moves| - 1]);
      Go(c, offsets, pace, n, moves[|moves| - 1])
  }

  /** With honest relays on links that lose nothing, no reply is ever refused. */
  lemma NoReplyRefused(c: Circuit, offsets: seq<Offsets>, pace: seq<Pace>, moves: seq<Move>)
    requires Chain(c, offsets) && |pace| == c.Hops() && forall a :: a in moves ==> Allowed(c, a)
    ensures var n := Course(c, offsets, pace, moves);
            n.talk.refused.None? && n.talk.accepted <= n.answers
  {
    var n := Course(c, offsets, pace, moves);
    assert InTurn(c, offsets, pace, n);
  }

  /**
   Nothing is lost on the way either: once every link and queue has drained and no
   hop has ended, every cell the client wrote has been answered and its answer read.
   */
  lemma {:induction false} DrainedMeansAnswered(c: Circuit, offsets: seq<Offsets>, pace: seq<Pace>, n: Net)
    requires InTurn(c, offsets, pace, n)
    requires forall i :: 0 <= i < c.Hops() ==> n.flows[i].alive && Outbound(n, i) == [] && Inbound(n, i) == []
    ensures |n.talk.accepted| == |n.answers| == n.talk.sent
  {
    assert TurnAt(c, offsets, n, Last(c));
    forall i | 0 <= i < c.Hops()
      ensures TakenOut(n, i) == if i == 0 then |n.inners| else TakenOut(n, i - 1)
      ensures SentBack(n, i) == TakenBack(n, i)
    {
      assert OutAt(c, n, i) && BackAt(c, n, i);
    }
    TakenEqual(n, Last(c));
    AcceptedEqual(n, Last(c));
  }

  lemma {:induction false} TakenEqual(n: Net, i: nat)
    requires i < |n.flows|
    requires forall j :: 0 <= j < |n.flows| ==> TakenOut(n, j) == if j == 0 then |n.inners| else TakenOut(n, j - 1)
    ensures TakenOut(n, i) == |n.inners|
  {
    assert TakenOut(n, i) == if i == 0 then |n.inners| else TakenOut(n, i - 1);
    if i > 0 {
      TakenEqual(n, i - 1);
    }
  }

  lemma {:induction false} AcceptedEqual(n: Net, i: nat)
    requires i < |n.flows|
    requires forall j :: 0 <= j < |n.flows| ==> SentBack(n, j) == TakenBack(n, j)
    ensures SentBack(n, i) == |n.talk.accepted|
  {
    if i > 0 {
      AcceptedEqual(n, i - 1);
      assert TakenBack(n, i) == SentBack(n, i - 1);
    }
  }
}
