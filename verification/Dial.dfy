/** From a setup to a circuit that works: what Dial and the relays on its chain end up holding (client/client.go, relay/relay.go). */
module Dialling {
  import opened Results
  import opened ByteStrings
  import opened Counters
  import opened Cells
  import opened Ciphers
  import opened Onion
  import opened Journeys
  import opened Replay
  import opened RelayCircuits
  import opened Protocol
  import opened NonceUse
  import Honest
  import opened Setup

  /** The chain as Dial lays it out: each hop is told the address and the link of the next. */
  function Hops(pubs: seq<Bytes>, addrs: seq<Bytes>, links: seq<Uint64>): (chain: seq<SetupHop>)
    requires |pubs| == |addrs| == |links|
    ensures |chain| == |pubs|
  {
    seq(|pubs|, i requires 0 <= i < |pubs| =>
      if i + 1 < |pubs| then SetupHop(pubs[i], addrs[i + 1], links[i + 1], links[i]) else SetupHop(pubs[i], [], 0, links[i]))
  }

  /** Addresses that can be told apart from none and survive their field. */
  predicate GoodAddrs(addrs: seq<Bytes>) {
    forall i :: 0 <= i < |addrs| ==> addrs[i] != [] && addrs[i][|addrs[i]| - 1] != 0
  }

  lemma HopsLinked(pubs: seq<Bytes>, addrs: seq<Bytes>, links: seq<Uint64>)
    requires |pubs| == |addrs| == |links| && GoodAddrs(addrs)
    ensures Linked(Hops(pubs, addrs, links))
  {}

  function CellKeys(keys: seq<HopKeys>): (k: seq<Key>)
    ensures |k| == |keys|
  {
    seq(|keys|, i requires 0 <= i < |keys| => keys[i].cell)
  }

  /** What Dial holds: the client's circuit, the keys behind it and the cell to send. */
  datatype Dialled = Dialled(circuit: Circuit, keys: seq<HopKeys>, cell: Cell)

  datatype DialError = NodeKey | SetupFailed(setup: SetupError)

  method Dial(p: Provider, pubs: seq<Bytes>, addrs: seq<Bytes>, links: seq<Uint64>, ephs: seq<Key>, tail: Bytes)
    returns (r: Result<Dialled, DialError>)
    requires Lawful(p) && |pubs| == |addrs| == |links| == |ephs|
    requires |tail| == SetupLayerLen(p, |pubs|) || SetupLayerLen(p, |pubs|) < 0
    ensures r.Ok? ==> FromDial(p, pubs, addrs, links, ephs, tail, r.value)
    ensures r.Ok? <==> (forall i :: 0 <= i < |pubs| ==> |pubs[i]| == p.pubLen) && Buildable(p, Hops(pubs, addrs, links), ephs)
  {
    for i := 0 to |pubs|
      invariant forall j :: 0 <= j < i ==> |pubs[j]| == p.pubLen
    {
      if |pubs[i]| != p.pubLen {
        return Err(NodeKey);
      }
    }
    var setup := BuildSetup(p, Hops(pubs, addrs, links), ephs, tail);
    if setup.Err? {
      return Err(SetupFailed(setup.error));
    }
    var keys := setup.value.keys;
    var c := NewCircuit(p.aead, CellKeys(keys), OffsetsOf(keys), links);
    // a setup that was built always makes a circuit
    assert c.Ok?;
    r := Ok(Dialled(c.value, keys, setup.value.cell));
  }

  /** What an accepted Dial leaves true. */
  ghost predicate FromDial(p: Provider, pubs: seq<Bytes>, addrs: seq<Bytes>, links: seq<Uint64>, ephs: seq<Key>, tail: Bytes, d: Dialled) {
    && Lawful(p) && |pubs| == |addrs| == |links| == |ephs|
    && var chain := Hops(pubs, addrs, links);
       && Buildable(p, chain, ephs) && KeysAgreed(p, chain, ephs, d.keys) && |tail| == SetupLayerLen(p, |chain|)
       && HeaderOf(d.cell) == Some(Header(Control, chain[0].link, 0))
       && BodyOf(d.cell) == SetupNest(p, chain, ephs, d.keys, tail, 0)
       && BuiltFrom(d.circuit, OffsetsOf(d.keys))
       && d.circuit.aead == p.aead && d.circuit.keys == CellKeys(d.keys) && d.circuit.links == links
  }

  /** A chain whose setup fits one cell leaves room for payload in every cell after it. */
  lemma RoomForPayload(p: Provider, n: nat)
    requires n >= 1 && p.pubLen >= 1 && SetupLayerLen(p, n) >= 0
    ensures LayerLen(n, p.aead.overhead) >= LENGTH_PREFIX && n <= MAX_HOPS
  {
    LayerLenIsProduct(n, p.aead.overhead);
    LayerLenIsProduct(n, Cost(p));
    AcceptedFits(p, n, 0);
    CostSplits(n, p.aead.overhead, p.pubLen + SETUP_HDR);
  }

  lemma CostSplits(n: nat, a: nat, b: nat)
    requires n >= 1
    ensures n * (a + b) == n * a + n * b && n * b >= b
  {}

  /** The client's circuit is one that every theorem about circuits is for. */
  lemma DialledChain(p: Provider, pubs: seq<Bytes>, addrs: seq<Bytes>, links: seq<Uint64>, ephs: seq<Key>, tail: Bytes, d: Dialled)
    requires FromDial(p, pubs, addrs, links, ephs, tail, d)
    ensures Chain(d.circuit, OffsetsOf(d.keys)) && d.circuit.Hops() == |pubs|
  {
    RoomForPayload(p, |pubs|);
  }

  /** The cell that reaches relay i, every relay before it having opened and forwarded. */
  ghost function At(p: Provider, pubs: seq<Bytes>, privs: seq<Key>, d: Dialled, fills: seq<Body>, i: nat): Result<Cell, SetupError>
    requires Lawful(p) && |privs| == |pubs| == |fills| && i < |privs|
  {
    Reached(p, privs, pubs, d.cell, fills, i)
  }

  /** What relay i holds once its setup is through: its hop and the state its circuit starts in. */
  function Settled(layer: SetupLayer): Flow {
    Flow(if layer.nextAddr == [] then Turn(layer.first, 0, true) else FRESH, FRESH, 0, true)
  }

  /** A layer that makes relay i of this circuit: its hop, its links and the state that runs of Protocol start in. */
  ghost predicate Makes(c: Circuit, offsets: seq<Offsets>, layer: SetupLayer, i: nat)
    requires Chain(c, offsets) && i < c.Hops()
  {
    && NewHop(c.aead, layer.cellKey, layer.offsets, i) == Ok(HopAt(c, offsets, i))
    && (layer.nextAddr == [] <==> i == Last(c))
    && (i < Last(c) ==> layer.nextCircuit == c.links[i + 1])
    && Initial(c).flows[i] == Settled(layer)
  }

  /** A setup cell on this link, for the relay in this place. */
  predicate Arrived(x: Cell, link: Uint64, i: nat) {
    var h := HeaderOf(x);
    h.Some? && h.value.kind.Control? && h.value.circuit == link && h.value.counter == i
  }

  /** The setup cell arrives at relay i on the circuit's own link and opens to such a layer. */
  ghost predicate RelayReady(p: Provider, pubs: seq<Bytes>, privs: seq<Key>, d: Dialled, fills: seq<Body>, i: nat)
    requires Lawful(p) && |privs| == |pubs| == |fills| && i < |privs|
    requires Chain(d.circuit, OffsetsOf(d.keys)) && d.circuit.Hops() == |pubs|
  {
    var x := At(p, pubs, privs, d, fills, i);
    && x.Ok? && Arrived(x.value, d.circuit.links[i], i)
    && var layer := OpenSetup(p, privs[i], pubs[i], x.value);
       layer.Ok? && Makes(d.circuit, OffsetsOf(d.keys), layer.value, i)
  }

  lemma PubsAreStatic(pubs: seq<Bytes>, addrs: seq<Bytes>, links: seq<Uint64>)
    requires |pubs| == |addrs| == |links|
    ensures StaticPubs(Hops(pubs, addrs, links)) == pubs
  {}

  /** The parts of a layer that make a relay, one by one. */
  ghost predicate Parts(c: Circuit, offsets: seq<Offsets>, layer: SetupLayer, i: nat)
    requires c.Shaped() && 1 <= c.Hops() == |offsets| && i < c.Hops()
  {
    && layer.cellKey == c.keys[i] && layer.offsets == offsets[i]
    && (layer.nextAddr == [] <==> i == Last(c))
    && (i < Last(c) ==> layer.nextCircuit == c.links[i + 1])
    && (i == Last(c) ==> layer.first == First(c))
  }

  lemma PartsMake(c: Circuit, offsets: seq<Offsets>, layer: SetupLayer, i: nat)
    requires Chain(c, offsets) && i < c.Hops() && Parts(c, offsets, layer, i)
    ensures Makes(c, offsets, layer, i)
  {
    HopBuilt(c, offsets, i);
  }

  /** What a relay is owed has those parts. */
  lemma OwingParts(p: Provider, chain: seq<SetupHop>, ephs: seq<Key>, keys: seq<HopKeys>, tail: Bytes, c: Circuit, i: nat)
    requires |ephs| == |keys| == |chain| && i < |chain| && p.aead.nonceSize >= 16
    requires (forall j :: 0 <= j < |chain| ==> |chain[j].nextAddr| <= ADDR_SIZE) && Linked(chain)
    requires BuiltFrom(c, OffsetsOf(keys)) && c.keys == CellKeys(keys)
    requires forall j :: 0 <= j < |chain| ==> c.links[j] == chain[j].link
    ensures Parts(c, OffsetsOf(keys), Owing(p, chain, ephs, keys, tail, i), i)
  {
    FirstMatchesCircuit(c, keys);
  }

  lemma OwingMakes(p: Provider, pubs: seq<Bytes>, addrs: seq<Bytes>, links: seq<Uint64>, ephs: seq<Key>, tail: Bytes, d: Dialled, i: nat)
    requires FromDial(p, pubs, addrs, links, ephs, tail, d) && GoodAddrs(addrs) && i < |pubs|
    requires Chain(d.circuit, OffsetsOf(d.keys)) && d.circuit.Hops() == |pubs|
    ensures Makes(d.circuit, OffsetsOf(d.keys), Owing(p, Hops(pubs, addrs, links), ephs, d.keys, tail, i), i)
  {
    HopsLinked(pubs, addrs, links);
    OwingParts(p, Hops(pubs, addrs, links), ephs, d.keys, tail, d.circuit, i);
    PartsMake(d.circuit, OffsetsOf(d.keys), Owing(p, Hops(pubs, addrs, links), ephs, d.keys, tail, i), i);
  }

  lemma RelayOpens(p: Provider, pubs: seq<Bytes>, addrs: seq<Bytes>, links: seq<Uint64>, ephs: seq<Key>, tail: Bytes,
                   d: Dialled, privs: seq<Key>, fills: seq<Body>, i: nat)
    requires FromDial(p, pubs, addrs, links, ephs, tail, d) && GoodAddrs(addrs)
    requires |privs| == |fills| == |pubs| && i < |pubs|
    requires forall j :: 0 <= j < |pubs| ==> pubs[j] == p.publicOf(privs[j])
    ensures var x := At(p, pubs, privs, d, fills, i);
            && x.Ok? && Arrived(x.value, links[i], i)
            && OpenSetup(p, privs[i], pubs[i], x.value) == Ok(Owing(p, Hops(pubs, addrs, links), ephs, d.keys, tail, i))
  {
    var chain := Hops(pubs, addrs, links);
    HopsLinked(pubs, addrs, links);
    PubsAreStatic(pubs, addrs, links);
    SetupRoundTrip(p, chain, ephs, privs, d.keys, tail, d.cell, fills, i);
  }

  /** The setup leaves every relay with the hop and the start that the client's circuit counts on. */
  lemma EveryRelayReady(p: Provider, pubs: seq<Bytes>, addrs: seq<Bytes>, links: seq<Uint64>, ephs: seq<Key>, tail: Bytes,
                        d: Dialled, privs: seq<Key>, fills: seq<Body>, i: nat)
    requires FromDial(p, pubs, addrs, links, ephs, tail, d) && GoodAddrs(addrs)
    requires |privs| == |fills| == |pubs| && i < |pubs|
    requires forall j :: 0 <= j < |pubs| ==> pubs[j] == p.publicOf(privs[j])
    ensures Chain(d.circuit, OffsetsOf(d.keys)) && d.circuit.Hops() == |pubs|
    ensures RelayReady(p, pubs, privs, d, fills, i)
  {
    DialledChain(p, pubs, addrs, links, ephs, tail, d);
    RelayOpens(p, pubs, addrs, links, ephs, tail, d, privs, fills, i);
    OwingMakes(p, pubs, addrs, links, ephs, tail, d, i);
  }

  /**
   From a Dial that succeeded to every run after it: what the exit delivers and
   what the client accepts are prefixes as they should be, and no nonce is used
   twice, with nothing assumed of the circuit.
   */
  lemma DialledRuns(p: Provider, pubs: seq<Bytes>, addrs: seq<Bytes>, links: seq<Uint64>, ephs: seq<Key>, tail: Bytes,
                    d: Dialled, actions: seq<Action>)
    requires FromDial(p, pubs, addrs, links, ephs, tail, d)
    requires d.circuit.Hops() >= 1 ==> forall a :: a in actions ==> Possible(d.circuit, a)
    ensures Chain(d.circuit, OffsetsOf(d.keys))
    ensures var w := Run(d.circuit, OffsetsOf(d.keys), actions);
            && w.delivered <= w.sealed && w.talk.accepted <= w.answers && |w.talk.accepted| <= w.talk.sent
            && NonceUse.Distinct(w.uses)
  {
    DialledChain(p, pubs, addrs, links, ephs, tail, d);
    ExitDeliversPrefix(d.circuit, OffsetsOf(d.keys), actions);
    ClientAcceptsPrefix(d.circuit, OffsetsOf(d.keys), actions);
    NeverReused(d.circuit, OffsetsOf(d.keys), actions);
  }

  /** And with honest relays on links that lose nothing, no reply after it is refused. */
  lemma DialledRepliesTaken(p: Provider, pubs: seq<Bytes>, addrs: seq<Bytes>, links: seq<Uint64>, ephs: seq<Key>, tail: Bytes,
                            d: Dialled, pace: seq<Honest.Pace>, moves: seq<Honest.Move>)
    requires FromDial(p, pubs, addrs, links, ephs, tail, d) && |pace| == |pubs|
    requires d.circuit.Hops() >= 1 ==> forall a :: a in moves ==> Honest.Allowed(d.circuit, a)
    ensures Chain(d.circuit, OffsetsOf(d.keys)) && d.circuit.Hops() == |pubs|
    ensures var n := Honest.Course(d.circuit, OffsetsOf(d.keys), pace, moves);
            n.talk.refused.None? && n.talk.accepted <= n.answers
  {
    DialledChain(p, pubs, addrs, links, ephs, tail, d);
    Honest.NoReplyRefused(d.circuit, OffsetsOf(d.keys), pace, moves);
  }
}
