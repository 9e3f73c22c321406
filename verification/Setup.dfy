/** One nested cell that sets a whole chain up (wire/setup.go). */
module Setup {
  import opened Results
  import opened ByteStrings
  import opened Counters
  import opened Nonces
  import opened Cells
  import opened Ciphers
  import opened Onion
  import opened Replay
  import opened Kdf

  const ADDR_SIZE: nat := 64
  const SETUP_FLAGS: nat := 1
  const SETUP_HDR: nat := SETUP_FLAGS + ADDR_SIZE + 8
  const CONTEXT_SIZE: nat := 32

  /** What keys and offsets are derived for; each has a label of its own. */
  datatype Purpose = ForSetup | ForCell | ForReplay | ForForward | ForBackward

  /** A suite, as values: key agreement, derivation and hash. */
  datatype Provider = Provider(
    suite: Suite,
    aead: Aead,
    pubLen: nat,
    keySize: nat,
    publicOf: Key -> Bytes,
    agree: (Key, Bytes, Bytes) -> Option<Key>,
    derive: (Key, Purpose, Bytes, nat) -> Bytes,
    hash: Bytes -> Bytes
  )

  /** The two ends of an agreement reach one secret, and every output has its size. */
  ghost predicate Lawful(p: Provider) {
    && KnownSuite(p.suite) && 1 <= p.pubLen <= MAX_PART_SIZE
    && Sound(p.aead) && p.aead.nonceSize >= 16
    && (forall k :: |p.publicOf(k)| == p.pubLen)
    && (forall a, b, ctx :: p.agree(a, p.publicOf(b), ctx) == p.agree(b, p.publicOf(a), ctx))
    && (forall s, w, ctx, n :: |p.derive(s, w, ctx, n)| == n)
    && (forall b :: |p.hash(b)| == CONTEXT_SIZE)
  }

  datatype SetupError =
    | EmptyChain | SetupSize | BadPublicKey | BadContext | AgreeFailed | AddrSize
    | BadHeader | NotSetup | NotOpened | Framing | NonceSize

  datatype SetupHop = SetupHop(staticPub: Bytes, nextAddr: Bytes, nextCircuit: Uint64, link: Uint64)

  function PerHopCost(pubLen: nat, overhead: nat): nat {
    pubLen + overhead + SETUP_HDR
  }

  function Cost(p: Provider): nat {
    PerHopCost(p.pubLen, p.aead.overhead)
  }

  function SetupLayerLen(p: Provider, index: nat): int {
    LayerLen(index, Cost(p))
  }

  /** "setup" */
  const EXCHANGE_SETUP: Bytes := [0x73, 0x65, 0x74, 0x75, 0x70]

  function ContextParts(index: nat, link: Uint64, staticPub: Bytes, ephPub: Bytes): seq<Bytes> {
    [[VERSION], [index % 256], U64(link), staticPub, ephPub]
  }

  /** One transcript per hop, hashed. */
  function SetupContext(p: Provider, index: nat, link: Uint64, staticPub: Bytes, ephPub: Bytes): Option<Bytes> {
    match Transcript(p.suite, EXCHANGE_SETUP, ContextParts(index, link, staticPub, ephPub))
    case Err(_) => None
    case Ok(t) => if |p.hash(t)| == CONTEXT_SIZE then Some(p.hash(t)) else None
  }

  /** What both ends take from a secret. */
  datatype HopKeys = HopKeys(setup: Key, cell: Key, offsets: Offsets, tag: SetupTag)

  function KeysFrom(p: Provider, secret: Key, ctx: Bytes): HopKeys
    requires forall s, w, c, n :: |p.derive(s, w, c, n)| == n
  {
    HopKeys(p.derive(secret, ForSetup, ctx, p.keySize),
            p.derive(secret, ForCell, ctx, p.keySize),
            Offsets(FromU64(p.derive(secret, ForForward, ctx, 8)) % COUNTER_LIMIT,
                    FromU64(p.derive(secret, ForBackward, ctx, 8)) % COUNTER_LIMIT),
            p.derive(secret, ForReplay, ctx, 16))
  }

  /** The keys the client agrees with hop i, with the one-time key eph. */
  function ClientKeys(p: Provider, hop: SetupHop, i: nat, eph: Key): Result<HopKeys, SetupError>
    requires forall s, w, c, n :: |p.derive(s, w, c, n)| == n
  {
    if |hop.staticPub| != p.pubLen then Err(BadPublicKey)
    else match SetupContext(p, i, hop.link, hop.staticPub, p.publicOf(eph))
      case None => Err(SetupError.BadContext)
      case Some(ctx) => match p.agree(eph, hop.staticPub, ctx)
        case None => Err(AgreeFailed)
        case Some(secret) => Ok(KeysFrom(p, secret, ctx))
  }

  // --------------------------------------------------------------- addresses

  /** The address field: the address and zeros. */
  function PutAddr(addr: Bytes): (r: Option<Bytes>)
    ensures r.Some? <==> |addr| <= ADDR_SIZE
    ensures r.Some? ==> |r.value| == ADDR_SIZE
  {
    if |addr| > ADDR_SIZE then None else Some(addr + Zeros(ADDR_SIZE - |addr|))
  }

  function TakeAddr(src: Bytes): Bytes {
    if src != [] && src[|src| - 1] == 0 then TakeAddr(src[..|src| - 1]) else src
  }

  lemma {:induction false} TrimZeros(addr: Bytes, n: nat)
    requires addr == [] || addr[|addr| - 1] != 0
    ensures TakeAddr(addr + Zeros(n)) == addr
  {
    var src := addr + Zeros(n);
    if n == 0 {
      assert src == addr;
    } else {
      assert src[..|src| - 1] == addr + Zeros(n - 1);
      TrimZeros(addr, n - 1);
    }
  }

  lemma {:induction false} TrimmedEnd(src: Bytes)
    ensures TakeAddr(src) == [] || TakeAddr(src)[|TakeAddr(src)| - 1] != 0
  {
    if src != [] && src[|src| - 1] == 0 {
      TrimmedEnd(src[..|src| - 1]);
    }
  }

  /** An address survives the field exactly when it does not end in a zero byte. */
  lemma AddrRoundTrip(addr: Bytes)
    requires |addr| <= ADDR_SIZE
    ensures TakeAddr(PutAddr(addr).value) == addr <==> (addr == [] || addr[|addr| - 1] != 0)
  {
    TrimmedEnd(PutAddr(addr).value);
    if addr == [] || addr[|addr| - 1] != 0 {
      TrimZeros(addr, ADDR_SIZE - |addr|);
    }
  }

  // ---------------------------------------------------------------- building

  function SetupAd(index: nat): Bytes {
    [VERSION, KindByte(Control), index % 256]
  }

  /** Where the exit's sequence starts: what forward cell 0 has become on the way there. */
  method FirstForward(before: seq<Offsets>) returns (sum: Counter)
    ensures sum == Sum(before, Forward)
  {
    sum := 0;
    for i := 0 to |before|
      invariant sum == Sum(before[..i], Forward)
    {
      SumSnoc(before, i, Forward);
      sum := Shift(sum, before[i].forward);
    }
    assert before[..|before|] == before;
  }

  /** What the layer of hop i holds in front of the layer it carries. */
  function LayerHead(hop: SetupHop, first: Counter): (r: Bytes)
    requires |hop.nextAddr| <= ADDR_SIZE
    ensures |r| == SETUP_HDR
  {
    [if hop.nextAddr != [] then 1 else 0] + PutAddr(hop.nextAddr).value
    + U64(if hop.nextAddr != [] then hop.nextCircuit else first)
  }

  function SetupNonce(p: Provider, link: Uint64): Bytes
    requires p.aead.nonceSize >= 16
  {
    NonceFor(p.aead.nonceSize, Forward, link, 0).value
  }

  function OffsetsOf(keys: seq<HopKeys>): (o: seq<Offsets>)
    ensures |o| == |keys|
  {
    seq(|keys|, i requires 0 <= i < |keys| => keys[i].offsets)
  }

  /** Layers i to the exit around the random tail. */
  function SetupNest(p: Provider, chain: seq<SetupHop>, ephs: seq<Key>, keys: seq<HopKeys>, tail: Bytes, i: nat): Bytes
    requires |ephs| == |keys| == |chain| && i <= |chain| && p.aead.nonceSize >= 16
    requires forall j :: 0 <= j < |chain| ==> |chain[j].nextAddr| <= ADDR_SIZE
    decreases |chain| - i
  {
    if i == |chain| then tail
    else
      p.publicOf(ephs[i]) +
      p.aead.seal(keys[i].setup, SetupNonce(p, chain[i].link),
                  LayerHead(chain[i], Sum(OffsetsOf(keys)[..i], Forward)) + SetupNest(p, chain, ephs, keys, tail, i + 1),
                  SetupAd(i))
  }

  lemma {:induction false} SetupNestFits(p: Provider, chain: seq<SetupHop>, ephs: seq<Key>, keys: seq<HopKeys>, tail: Bytes, i: nat)
    requires Lawful(p) && |ephs| == |keys| == |chain| && i <= |chain|
    requires forall j :: 0 <= j < |chain| ==> |chain[j].nextAddr| <= ADDR_SIZE
    requires |tail| == SetupLayerLen(p, |chain|)
    ensures |SetupNest(p, chain, ephs, keys, tail, i)| == SetupLayerLen(p, i)
    decreases |chain| - i
  {
    if i < |chain| {
      SetupNestFits(p, chain, ephs, keys, tail, i + 1);
    }
  }

  /** The keys of every hop, in order, when each agreement succeeds. */
  ghost predicate KeysAgreed(p: Provider, chain: seq<SetupHop>, ephs: seq<Key>, keys: seq<HopKeys>)
    requires Lawful(p)
  {
    && |ephs| == |keys| == |chain|
    && forall i :: 0 <= i < |chain| ==> ClientKeys(p, chain[i], i, ephs[i]) == Ok(keys[i])
  }

  /** The conditions BuildSetup puts on a chain. */
  ghost predicate Buildable(p: Provider, chain: seq<SetupHop>, ephs: seq<Key>)
    requires Lawful(p) && |ephs| == |chain|
  {
    && chain != []
    && SetupLayerLen(p, |chain|) >= 0
    && (forall i :: 0 <= i < |chain| ==> ClientKeys(p, chain[i], i, ephs[i]).Ok?)
    && (forall i :: 0 <= i < |chain| ==> |chain[i].nextAddr| <= ADDR_SIZE)
  }

  /** The transcript of a hop is always well formed, so keys of the right size always have a context. */
  lemma ContextExists(p: Provider, index: nat, link: Uint64, staticPub: Bytes, ephPub: Bytes)
    requires Lawful(p) && |staticPub| == |ephPub| == p.pubLen
    ensures Transcript(p.suite, EXCHANGE_SETUP, ContextParts(index, link, staticPub, ephPub)).Ok?
    ensures SetupContext(p, index, link, staticPub, ephPub)
         == Some(p.hash(Transcript(p.suite, EXCHANGE_SETUP, ContextParts(index, link, staticPub, ephPub)).value))
  {
    assert ValidName(EXCHANGE_SETUP);
    assert ValidParts(ContextParts(index, link, staticPub, ephPub));
  }

  /** Whether the agreement with hop i succeeds, under the context of its own transcript. */
  ghost predicate Agrees(p: Provider, hop: SetupHop, i: nat, eph: Key) {
    var t := Transcript(p.suite, EXCHANGE_SETUP, ContextParts(i, hop.link, hop.staticPub, p.publicOf(eph)));
    t.Ok? && p.agree(eph, hop.staticPub, p.hash(t.value)).Some?
  }

  lemma KeysExactly(p: Provider, hop: SetupHop, i: nat, eph: Key)
    requires Lawful(p)
    ensures ClientKeys(p, hop, i, eph).Ok? <==> |hop.staticPub| == p.pubLen && Agrees(p, hop, i, eph)
  {
    if |hop.staticPub| == p.pubLen {
      ContextExists(p, i, hop.link, hop.staticPub, p.publicOf(eph));
    }
  }

  /** Which chains a setup can be built for: the layers fit one cell, and each hop has a key that agrees and an address that fits. */
  lemma BuildsExactly(p: Provider, chain: seq<SetupHop>, ephs: seq<Key>)
    requires Lawful(p) && |ephs| == |chain|
    ensures Buildable(p, chain, ephs) <==>
              && 1 <= |chain| && |chain| * (p.pubLen + p.aead.overhead + 73) <= 494
              && forall i :: 0 <= i < |chain| ==>
                   |chain[i].staticPub| == p.pubLen && Agrees(p, chain[i], i, ephs[i]) && |chain[i].nextAddr| <= 64
  {
    LayerLenIsProduct(|chain|, Cost(p));
    forall i | 0 <= i < |chain|
      ensures ClientKeys(p, chain[i], i, ephs[i]).Ok? <==> |chain[i].staticPub| == p.pubLen && Agrees(p, chain[i], i, ephs[i])
    {
      KeysExactly(p, chain[i], i, ephs[i]);
    }
  }

  datatype SetupResult = SetupResult(cell: Cell, keys: seq<HopKeys>)

  method BuildSetup(p: Provider, chain: seq<SetupHop>, ephs: seq<Key>, tail: Bytes) returns (r: Result<SetupResult, SetupError>)
    requires Lawful(p) && |ephs| == |chain|
    requires |tail| == SetupLayerLen(p, |chain|) || SetupLayerLen(p, |chain|) < 0
    ensures r.Ok? <==> Buildable(p, chain, ephs)
    ensures r.Ok? ==> KeysAgreed(p, chain, ephs, r.value.keys)
    ensures r.Ok? ==> HeaderOf(r.value.cell) == Some(Header(Control, chain[0].link, 0))
    ensures r.Ok? ==> BodyOf(r.value.cell) == SetupNest(p, chain, ephs, r.value.keys, tail, 0)
  {
    if |chain| == 0 {
      return Err(EmptyChain);
    }
    if SetupLayerLen(p, |chain|) < 0 {
      return Err(SetupSize);
    }
    var keys: seq<HopKeys> := [];
    for i := 0 to |chain|
      invariant |keys| == i
      invariant forall j :: 0 <= j < i ==> ClientKeys(p, chain[j], j, ephs[j]) == Ok(keys[j])
    {
      var agreed := ClientKeys(p, chain[i], i, ephs[i]);
      if agreed.Err? {
        return Err(agreed.error);
      }
      keys := keys + [agreed.value];
    }
    var nested := WrapLayers(p, chain, ephs, keys, tail);
    if nested.Err? {
      return Err(AddrSize);
    }
    SetupNestFits(p, chain, ephs, keys, tail, 0);
    HeaderRoundTrip(Header(Control, chain[0].link, 0), nested.value);
    return Ok(SetupResult(NewCell(Header(Control, chain[0].link, 0), nested.value), keys));
  }

  /** Regrows the body from the exit inwards. */
  method WrapLayers(p: Provider, chain: seq<SetupHop>, ephs: seq<Key>, keys: seq<HopKeys>, tail: Bytes)
    returns (r: Result<Bytes, SetupError>)
    requires Lawful(p) && |ephs| == |keys| == |chain|
    ensures r.Ok? <==> forall i :: 0 <= i < |chain| ==> |chain[i].nextAddr| <= ADDR_SIZE
    ensures r.Ok? ==> r.value == SetupNest(p, chain, ephs, keys, tail, 0)
  {
    var body, i := tail, |chain|;
    ghost var fits := forall j :: 0 <= j < |chain| ==> |chain[j].nextAddr| <= ADDR_SIZE;
    while i > 0
      invariant 0 <= i <= |chain|
      invariant forall j :: i <= j < |chain| ==> |chain[j].nextAddr| <= ADDR_SIZE
      invariant fits ==> body == SetupNest(p, chain, ephs, keys, tail, i)
    {
      i := i - 1;
      if PutAddr(chain[i].nextAddr).None? {
        return Err(AddrSize);
      }
      var first := FirstForward(OffsetsOf(keys)[..i]);
      var plain := LayerHead(chain[i], first) + body;
      body := p.publicOf(ephs[i]) + p.aead.seal(keys[i].setup, SetupNonce(p, chain[i].link), plain, SetupAd(i));
    }
    return Ok(body);
  }

  // ----------------------------------------------------------------- opening

  datatype SetupLayer = SetupLayer(
    nextAddr: Bytes, nextCircuit: Uint64, inner: Bytes, cellKey: Key, offsets: Offsets, first: Uint64, tag: SetupTag)

  /** A relay's view of a setup cell under its own onion key. */
  function OpenSetup(p: Provider, priv: Key, pub: Bytes, cell: Cell): (r: Result<SetupLayer, SetupError>)
    requires Lengths(p.aead) && forall s, w, c, n :: |p.derive(s, w, c, n)| == n
  {
    match HeaderOf(cell)
    case None => Err(SetupError.BadHeader)
    case Some(hdr) =>
      if !hdr.kind.Control? then Err(NotSetup)
      else if hdr.counter >= MAX_HOPS then Err(SetupSize)
      else if |pub| != p.pubLen then Err(BadPublicKey)
      else
        var index := hdr.counter;
        var layerLen := SetupLayerLen(p, index);
        if layerLen <= p.pubLen + p.aead.overhead || layerLen > BODY_SIZE then Err(SetupSize)
        else OpenLayer(p, priv, pub, hdr, index, BodyOf(cell)[..layerLen])
  }

  function OpenLayer(p: Provider, priv: Key, pub: Bytes, hdr: Header, index: nat, layer: Bytes): (r: Result<SetupLayer, SetupError>)
    requires Lengths(p.aead) && forall s, w, c, n :: |p.derive(s, w, c, n)| == n
    requires |layer| >= p.pubLen
  {
    var ephPub := layer[..p.pubLen];
    match SetupContext(p, index, hdr.circuit, pub, ephPub)
    case None => Err(SetupError.BadContext)
    case Some(ctx) => match p.agree(priv, ephPub, ctx)
      case None => Err(AgreeFailed)
      case Some(secret) =>
        var keys := KeysFrom(p, secret, ctx);
        match NonceFor(p.aead.nonceSize, Forward, hdr.circuit, 0)
        case Err(_) => Err(SetupError.NonceSize)
        case Ok(nonce) => match p.aead.open(keys.setup, nonce, layer[p.pubLen..], SetupAd(index))
          case None => Err(SetupError.NotOpened)
          case Some(plain) => ReadLayer(keys, plain)
  }

  function ReadLayer(keys: HopKeys, plain: Bytes): (r: Result<SetupLayer, SetupError>) {
    if |plain| < SETUP_HDR then Err(SetupError.Framing)
    else
      var next := FromU64(plain[SETUP_FLAGS + ADDR_SIZE..SETUP_HDR]);
      var inner := plain[SETUP_HDR..];
      if plain[0] == 1 then
        Ok(SetupLayer(TakeAddr(plain[SETUP_FLAGS..SETUP_FLAGS + ADDR_SIZE]), next, inner, keys.cell, keys.offsets, 0, keys.tag))
      else if next >= COUNTER_LIMIT then Err(SetupError.Framing)
      else Ok(SetupLayer([], 0, inner, keys.cell, keys.offsets, next, keys.tag))
  }

  function ForwardSetup(layer: SetupLayer, index: nat, fill: Body): (c: Cell)
    requires |layer.inner| <= BODY_SIZE
  {
    NewCell(Header(Control, layer.nextCircuit, (index + 1) % TWO64), Overlay(layer.inner, fill))
  }

  // -------------------------------------------------------------- round trip

  /** The layer a relay at hop i is owed. */
  function Owing(p: Provider, chain: seq<SetupHop>, ephs: seq<Key>, keys: seq<HopKeys>, tail: Bytes, i: nat): SetupLayer
    requires |ephs| == |keys| == |chain| && i < |chain| && p.aead.nonceSize >= 16
    requires forall j :: 0 <= j < |chain| ==> |chain[j].nextAddr| <= ADDR_SIZE
  {
    var inner := SetupNest(p, chain, ephs, keys, tail, i + 1);
    if chain[i].nextAddr != [] then
      SetupLayer(chain[i].nextAddr, chain[i].nextCircuit, inner, keys[i].cell, keys[i].offsets, 0, keys[i].tag)
    else
      SetupLayer([], 0, inner, keys[i].cell, keys[i].offsets, Sum(OffsetsOf(keys)[..i], Forward), keys[i].tag)
  }

  lemma ReadsHead(keys: HopKeys, hop: SetupHop, first: Counter, inner: Bytes)
    requires |hop.nextAddr| <= ADDR_SIZE && (hop.nextAddr != [] ==> hop.nextAddr[|hop.nextAddr| - 1] != 0)
    ensures ReadLayer(keys, LayerHead(hop, first) + inner)
         == Ok(if hop.nextAddr != []
               then SetupLayer(hop.nextAddr, hop.nextCircuit, inner, keys.cell, keys.offsets, 0, keys.tag)
               else SetupLayer([], 0, inner, keys.cell, keys.offsets, first, keys.tag))
  {
    var plain := LayerHead(hop, first) + inner;
    var next: Uint64 := if hop.nextAddr != [] then hop.nextCircuit else first;
    assert plain[1..65] == PutAddr(hop.nextAddr).value;
    assert plain[65..73] == U64(next);
    assert plain[73..] == inner;
    U64RoundTrip(next);
    AddrRoundTrip(hop.nextAddr);
  }

  /** Any chain that BuildSetup accepts is short enough, and each layer long enough, for OpenSetup. */
  lemma {:induction false} AcceptedFits(p: Provider, n: nat, i: nat)
    requires 1 <= p.pubLen && SetupLayerLen(p, n) >= 0 && i < n
    ensures n <= 6 && i < MAX_HOPS
    ensures p.pubLen + p.aead.overhead + SETUP_HDR <= SetupLayerLen(p, i) <= BODY_SIZE
    ensures SetupLayerLen(p, i + 1) == SetupLayerLen(p, i) - Cost(p)
  {
    TagsGrow(i + 1, n, Cost(p));
    if n > 6 {
      TagsGrow(7, n, Cost(p));
      LayerLenIsProduct(7, Cost(p));
    }
  }

  /** The cell of the setup on the link into hop i. */
  ghost predicate SetupAt(p: Provider, chain: seq<SetupHop>, ephs: seq<Key>, keys: seq<HopKeys>, tail: Bytes, i: nat, cell: Cell)
    requires |ephs| == |keys| == |chain| && i < |chain| && p.aead.nonceSize >= 16
    requires forall j :: 0 <= j < |chain| ==> |chain[j].nextAddr| <= ADDR_SIZE
  {
    var h, layer := HeaderOf(cell), SetupNest(p, chain, ephs, keys, tail, i);
    && h.Some? && h.value.kind.Control? && h.value.circuit == chain[i].link && h.value.counter == i
    && |layer| <= BODY_SIZE && BodyOf(cell)[..|layer|] == layer
  }

  /** A chain as Dial lays it out: every link named to the hop before it, only the exit without a next address. */
  predicate Linked(chain: seq<SetupHop>) {
    && (forall i :: 0 <= i < |chain| - 1 ==> chain[i].nextAddr != [] && chain[i].nextCircuit == chain[i + 1].link)
    && (chain != [] ==> chain[|chain| - 1].nextAddr == [])
    && (forall i :: 0 <= i < |chain| && chain[i].nextAddr != [] ==> chain[i].nextAddr[|chain[i].nextAddr| - 1] != 0)
  }

  lemma HopOpens(p: Provider, chain: seq<SetupHop>, ephs: seq<Key>, keys: seq<HopKeys>, tail: Bytes, i: nat, priv: Key, cell: Cell)
    requires Lawful(p) && KeysAgreed(p, chain, ephs, keys) && i < |chain| && Linked(chain)
    requires forall j :: 0 <= j < |chain| ==> |chain[j].nextAddr| <= ADDR_SIZE
    requires SetupLayerLen(p, |chain|) >= 0 && |tail| == SetupLayerLen(p, |chain|)
    requires chain[i].staticPub == p.publicOf(priv)
    requires SetupAt(p, chain, ephs, keys, tail, i, cell)
    ensures OpenSetup(p, priv, chain[i].staticPub, cell) == Ok(Owing(p, chain, ephs, keys, tail, i))
  {
    AcceptedFits(p, |chain|, i);
    SetupNestFits(p, chain, ephs, keys, tail, i);
    var layer := SetupNest(p, chain, ephs, keys, tail, i);
    var hdr := HeaderOf(cell).value;
    assert OpenSetup(p, priv, chain[i].staticPub, cell) == OpenLayer(p, priv, chain[i].staticPub, hdr, i, layer);
    LayerOpens(p, chain, ephs, keys, tail, i, priv, hdr);
  }

  lemma LayerOpens(p: Provider, chain: seq<SetupHop>, ephs: seq<Key>, keys: seq<HopKeys>, tail: Bytes, i: nat, priv: Key, hdr: Header)
    requires Lawful(p) && |ephs| == |keys| == |chain| && i < |chain|
    requires ClientKeys(p, chain[i], i, ephs[i]) == Ok(keys[i])
    requires forall j :: 0 <= j < |chain| ==> |chain[j].nextAddr| <= ADDR_SIZE
    requires chain[i].nextAddr != [] ==> chain[i].nextAddr[|chain[i].nextAddr| - 1] != 0
    requires chain[i].staticPub == p.publicOf(priv) && hdr.circuit == chain[i].link
    ensures |SetupNest(p, chain, ephs, keys, tail, i)| >= p.pubLen
    ensures OpenLayer(p, priv, chain[i].staticPub, hdr, i, SetupNest(p, chain, ephs, keys, tail, i))
         == Ok(Owing(p, chain, ephs, keys, tail, i))
  {
    var ephPub := p.publicOf(ephs[i]);
    var first := Sum(OffsetsOf(keys)[..i], Forward);
    var inner := SetupNest(p, chain, ephs, keys, tail, i + 1);
    var plain := LayerHead(chain[i], first) + inner;
    var ct := p.aead.seal(keys[i].setup, SetupNonce(p, chain[i].link), plain, SetupAd(i));
    var layer := ephPub + ct;
    assert SetupNest(p, chain, ephs, keys, tail, i) == layer;
    assert layer[..p.pubLen] == ephPub && layer[p.pubLen..] == ct;
    ReadsHead(keys[i], chain[i], first, inner);
  }

  /** A control cell on the right link whose body starts with the layer. */
  lemma StandsAt(p: Provider, chain: seq<SetupHop>, ephs: seq<Key>, keys: seq<HopKeys>, tail: Bytes, i: nat, layer: Bytes, fill: Body)
    requires |ephs| == |keys| == |chain| && i < |chain| && i < TWO64 && p.aead.nonceSize >= 16
    requires forall j :: 0 <= j < |chain| ==> |chain[j].nextAddr| <= ADDR_SIZE
    requires |layer| <= BODY_SIZE && layer == SetupNest(p, chain, ephs, keys, tail, i)
    ensures SetupAt(p, chain, ephs, keys, tail, i, NewCell(Header(Control, chain[i].link, i), Overlay(layer, fill)))
  {
    HeaderRoundTrip(Header(Control, chain[i].link, i), Overlay(layer, fill));
  }

  lemma ForwardedIs(layer: SetupLayer, i: nat, link: Uint64, fill: Body)
    requires |layer.inner| <= BODY_SIZE && i < MAX_HOPS && layer.nextCircuit == link
    ensures ForwardSetup(layer, i, fill) == NewCell(Header(Control, link, i + 1), Overlay(layer.inner, fill))
  {}

  lemma HopForwards(p: Provider, chain: seq<SetupHop>, ephs: seq<Key>, keys: seq<HopKeys>, tail: Bytes, i: nat, fill: Body)
    requires Lawful(p) && |ephs| == |keys| == |chain| && i + 1 < |chain| && Linked(chain)
    requires forall j :: 0 <= j < |chain| ==> |chain[j].nextAddr| <= ADDR_SIZE
    requires SetupLayerLen(p, |chain|) >= 0 && |tail| == SetupLayerLen(p, |chain|)
    ensures |Owing(p, chain, ephs, keys, tail, i).inner| <= BODY_SIZE
    ensures SetupAt(p, chain, ephs, keys, tail, i + 1, ForwardSetup(Owing(p, chain, ephs, keys, tail, i), i, fill))
  {
    AcceptedFits(p, |chain|, i + 1);
    SetupNestFits(p, chain, ephs, keys, tail, i + 1);
    StandsAt(p, chain, ephs, keys, tail, i + 1, SetupNest(p, chain, ephs, keys, tail, i + 1), fill);
    ForwardedIs(Owing(p, chain, ephs, keys, tail, i), i, chain[i + 1].link, fill);
  }

  /** What hop i opens when every hop before it opened and forwarded. */
  ghost function Reached(p: Provider, privs: seq<Key>, pubs: seq<Bytes>, cell: Cell, fills: seq<Body>, i: nat): Result<Cell, SetupError>
    requires Lawful(p) && |privs| == |pubs| == |fills| && i < |privs|
  {
    if i == 0 then Ok(cell)
    else match Reached(p, privs, pubs, cell, fills, i - 1)
      case Err(e) => Err(e)
      case Ok(x) => match OpenSetup(p, privs[i - 1], pubs[i - 1], x)
        case Err(e) => Err(e)
        case Ok(layer) => if |layer.inner| > BODY_SIZE then Err(SetupSize) else Ok(ForwardSetup(layer, i - 1, fills[i - 1]))
  }

  function StaticPubs(chain: seq<SetupHop>): seq<Bytes> {
    seq(|chain|, i requires 0 <= i < |chain| => chain[i].staticPub)
  }

  /**
   For every chain that fits: each relay in turn opens exactly the next address,
   next circuit, cell key and offsets the client holds for it, and the exit the
   counter that the client's first cell will carry into it.
   */
  lemma {:induction false} SetupRoundTrip(p: Provider, chain: seq<SetupHop>, ephs: seq<Key>, privs: seq<Key>, keys: seq<HopKeys>, tail: Bytes,
                                          cell: Cell, fills: seq<Body>, i: nat)
    requires Lawful(p) && |ephs| == |chain| && Buildable(p, chain, ephs) && KeysAgreed(p, chain, ephs, keys) && Linked(chain)
    requires |privs| == |fills| == |chain| && i < |chain|
    requires forall j :: 0 <= j < |chain| ==> chain[j].staticPub == p.publicOf(privs[j])
    requires |tail| == SetupLayerLen(p, |chain|)
    requires HeaderOf(cell) == Some(Header(Control, chain[0].link, 0))
    requires BodyOf(cell) == SetupNest(p, chain, ephs, keys, tail, 0)
    ensures var x := Reached(p, privs, StaticPubs(chain), cell, fills, i);
            && x.Ok? && SetupAt(p, chain, ephs, keys, tail, i, x.value)
            && OpenSetup(p, privs[i], chain[i].staticPub, x.value) == Ok(Owing(p, chain, ephs, keys, tail, i))
  {
    if i == 0 {
      assert BodyOf(cell)[..BODY_SIZE] == BodyOf(cell);
      HopOpens(p, chain, ephs, keys, tail, 0, privs[0], cell);
    } else {
      SetupRoundTrip(p, chain, ephs, privs, keys, tail, cell, fills, i - 1);
      HopForwards(p, chain, ephs, keys, tail, i - 1, fills[i - 1]);
      var x := Reached(p, privs, StaticPubs(chain), cell, fills, i).value;
      HopOpens(p, chain, ephs, keys, tail, i, privs[i], x);
    }
  }

  /** The exit's first counter is the one cell 0 of the client's own circuit carries into it. */
  lemma FirstMatchesCircuit(c: Circuit, keys: seq<HopKeys>)
    requires BuiltFrom(c, OffsetsOf(keys))
    ensures Sum(OffsetsOf(keys)[..|keys| - 1], Forward) == ValueAt(c, |keys| - 1, Forward, 0)
  {}

  /** What a setup cell holds for this key under this secret: the layer's plain text, if it opens. */
  function PlainSetup(p: Provider, secret: Key, ctx: Bytes, hdr: Header, layer: Bytes): Option<Bytes>
    requires p.aead.nonceSize >= 16 && |layer| >= p.pubLen
  {
    p.aead.open(p.derive(secret, ForSetup, ctx, p.keySize), SetupNonce(p, hdr.circuit), layer[p.pubLen..], SetupAd(hdr.counter))
  }

  /** All that a setup must be for a key to open it. */
  ghost predicate Opens(p: Provider, priv: Key, pub: Bytes, hdr: Header, body: Body) {
    && hdr.kind == Control && hdr.counter < 8 && |pub| == p.pubLen && p.aead.nonceSize >= 16
    && p.pubLen + p.aead.overhead < SetupLayerLen(p, hdr.counter) <= BODY_SIZE
    && var layer := body[..SetupLayerLen(p, hdr.counter)];
       var ctx := SetupContext(p, hdr.counter, hdr.circuit, pub, layer[..p.pubLen]);
       && ctx.Some? && p.agree(priv, layer[..p.pubLen], ctx.value).Some?
       && var plain := PlainSetup(p, p.agree(priv, layer[..p.pubLen], ctx.value).value, ctx.value, hdr, layer);
          && plain.Some? && |plain.value| >= 73
          && (plain.value[0] == 1 || FromU64(plain.value[65..73]) < 0x4000_0000_0000_0000)
  }

  /** Nothing but such a setup opens, and each such setup does. */
  lemma OpensSetupsOnly(p: Provider, priv: Key, pub: Bytes, cell: Cell)
    requires Lengths(p.aead) && forall s, w, c, n :: |p.derive(s, w, c, n)| == n
    ensures OpenSetup(p, priv, pub, cell).Ok? <==> HeaderOf(cell).Some? && Opens(p, priv, pub, HeaderOf(cell).value, BodyOf(cell))
  {}

  // --------------------------------------------------------- what is bound and apart

  /** Outputs for different purposes differ, as they do for a derivation that keeps labels apart. */
  ghost predicate Separates(p: Provider, secret: Key, ctx: Bytes) {
    forall v, w :: v != w ==> p.derive(secret, v, ctx, p.keySize) != p.derive(secret, w, ctx, p.keySize)
  }

  /** Then the key of the setup is not the key of the cells, and each offset is a number of its own below 2^62. */
  lemma KeysApart(p: Provider, secret: Key, ctx: Bytes)
    requires forall s, w, c, n :: |p.derive(s, w, c, n)| == n
    requires Separates(p, secret, ctx)
    ensures var k := KeysFrom(p, secret, ctx);
            && k.setup != k.cell && |k.setup| == |k.cell| == p.keySize
            && k.offsets.forward == FromU64(p.derive(secret, ForForward, ctx, 8)) % 0x4000_0000_0000_0000
            && k.offsets.backward == FromU64(p.derive(secret, ForBackward, ctx, 8)) % 0x4000_0000_0000_0000
  {}

  /** One transcript is one place in one chain: it fixes the hop's number, its link and both public keys. */
  lemma ContextBinds(p: Provider, i: nat, link: Uint64, pub: Bytes, eph: Bytes, j: nat, link': Uint64, pub': Bytes, eph': Bytes)
    requires Transcript(p.suite, EXCHANGE_SETUP, ContextParts(i, link, pub, eph)).Ok?
    requires Transcript(p.suite, EXCHANGE_SETUP, ContextParts(i, link, pub, eph))
          == Transcript(p.suite, EXCHANGE_SETUP, ContextParts(j, link', pub', eph'))
    requires i < 256 && j < 256
    ensures i == j && link == link' && pub == pub' && eph == eph'
  {
    var a, b := ContextParts(i, link, pub, eph), ContextParts(j, link', pub', eph');
    TranscriptInjective(p.suite, EXCHANGE_SETUP, a, p.suite, EXCHANGE_SETUP, b);
    assert a[1] == b[1] && a[2] == b[2] && a[3] == b[3] && a[4] == b[4];
    U64Injective(link, link');
  }
}
