/** Two slots for onion keys, and what is remembered under each (relay/onion.go). */
module Ring {
  import opened Results
  import opened ByteStrings
  import opened Cells
  import opened Ciphers
  import opened Replay
  import opened Setup

  /** A locked buffer, named so that its release can be told from another's. */
  type Handle = nat

  datatype OnionKey = OnionKey(epoch: nat, handle: Handle, priv: Key, pub: Bytes, setups: set<SetupTag>)

  datatype RingError = BadOnionKey | PairMismatch | RingClosed | NotOpened | TagRefused(why: TagError)

  /** The ring's fields, and the buffers it has released, in order. */
  datatype State = State(current: Option<OnionKey>, previous: Option<OnionKey>, closed: bool, released: seq<Handle>)

  function Fresh(handle: Handle, priv: Key, pub: Bytes): State {
    State(Some(OnionKey(0, handle, priv, pub, {})), None, false, [])
  }

  function Freed(k: Option<OnionKey>): seq<Handle> {
    if k.Some? then [k.value.handle] else []
  }

  /** Rotate; pair says whether the key pair agreed with itself. */
  function Rotated(s: State, pubSize: nat, handle: Handle, priv: Option<Key>, pub: Bytes, pair: bool): (r: (State, Result<nat, RingError>)) {
    if priv.None? || |pub| != pubSize then (s, Err(BadOnionKey))
    else if !pair then (s, Err(PairMismatch))
    else if s.closed || s.current.None? then (s, Err(RingClosed))
    else if pub == s.current.value.pub then (s, Err(BadOnionKey))
    else
      var epoch := (s.current.value.epoch + 1) % TWO32;
      (State(Some(OnionKey(epoch, handle, priv.value, pub, {})), s.current, false, s.released + Freed(s.previous)), Ok(epoch))
  }

  function Retired(s: State): State {
    s.(previous := None, released := s.released + Freed(s.previous))
  }

  function Closed(s: State): State {
    State(None, None, true, s.released + Freed(s.current) + Freed(s.previous))
  }

  /** What a key makes of a setup cell. */
  function Look(p: Provider, k: Option<OnionKey>, cell: Cell): Option<SetupLayer>
    requires Lengths(p.aead) && forall s, w, c, n :: |p.derive(s, w, c, n)| == n
  {
    if k.None? then None
    else match OpenSetup(p, k.value.priv, k.value.pub, cell)
      case Err(_) => None
      case Ok(layer) => Some(layer)
  }

  function Burn(k: OnionKey, tag: SetupTag): OnionKey {
    k.(setups := k.setups + {tag})
  }

  /** A tag burned under the current key, or under the one before. */
  function Tagged(s: State, current: bool, tag: SetupTag): State {
    if current then if s.current.Some? then s.(current := Some(Burn(s.current.value, tag))) else s
    else if s.previous.Some? then s.(previous := Some(Burn(s.previous.value, tag))) else s
  }

  /** Open, given what each key made of the cell: the tag is burned under the key that opened first. */
  function Decided(s: State, max: nat, now: Option<SetupLayer>, before: Option<SetupLayer>): (r: (State, Result<SetupLayer, RingError>))
    requires (now.Some? ==> s.current.Some?) && (before.Some? ==> s.previous.Some?)
  {
    if s.closed then (s, Err(RingClosed))
    else if now.Some? then
      match TagVerdict(max, s.current.value.setups, now.value.tag)
      case Some(why) => (s, Err(TagRefused(why)))
      case None => (s.(current := Some(Burn(s.current.value, now.value.tag))), Ok(now.value))
    else if before.Some? then
      match TagVerdict(max, s.previous.value.setups, before.value.tag)
      case Some(why) => (s, Err(TagRefused(why)))
      case None => (s.(previous := Some(Burn(s.previous.value, before.value.tag))), Ok(before.value))
    else (s, Err(RingError.NotOpened))
  }

  function Tried(s: State, p: Provider, max: nat, cell: Cell): (r: (State, Result<SetupLayer, RingError>))
    requires Lengths(p.aead) && forall s, w, c, n :: |p.derive(s, w, c, n)| == n
  {
    Decided(s, max, Look(p, s.current, cell), Look(p, s.previous, cell))
  }

  ghost predicate Ready(p: Provider) {
    Lengths(p.aead) && forall s, w, c, n :: |p.derive(s, w, c, n)| == n
  }

  /** A held key that reads a setup cell. */
  ghost predicate Reads(p: Provider, k: Option<OnionKey>, cell: Cell)
    requires Ready(p)
  {
    k.Some? && OpenSetup(p, k.value.priv, k.value.pub, cell).Ok?
  }

  /**
   What becomes of every cell: the newer key that reads it decides alone. A tag it
   has seen is a replay, a tag it has no room for is refused, any other is let
   through with just the layer that key reads, and remembered there and nowhere
   else. A refusal changes nothing.
   */
  lemma OpensExactly(p: Provider, max: nat, s: State, cell: Cell)
    requires Ready(p)
    ensures var (s', r) := Tried(s, p, max, cell);
            && (r == Err(RingClosed) <==> s.closed)
            && (r == Err(RingError.NotOpened) <==> !s.closed && !Reads(p, s.current, cell) && !Reads(p, s.previous, cell))
            && (r.Err? ==> s' == s)
    ensures !s.closed && (Reads(p, s.current, cell) || Reads(p, s.previous, cell)) ==>
              var (s', r) := Tried(s, p, max, cell);
              var k := if Reads(p, s.current, cell) then s.current.value else s.previous.value;
              var layer := OpenSetup(p, k.priv, k.pub, cell).value;
              if layer.tag in k.setups then r == Err(TagRefused(Replayed))
              else if |k.setups| >= max then r == Err(TagRefused(CacheFull))
              else
                && r == Ok(layer)
                && var k' := Some(OnionKey(k.epoch, k.handle, k.priv, k.pub, k.setups + {layer.tag}));
                   s' == if Reads(p, s.current, cell) then State(k', s.previous, false, s.released)
                         else State(s.current, k', false, s.released)
  {}

  /** As the node's schedule sees an attempt: a tag burned under one of its keys, or nothing. */
  lemma OpensTagged(p: Provider, max: nat, s: State, cell: Cell)
    requires Ready(p)
    ensures var (s', r) := Tried(s, p, max, cell);
            s' == if r.Ok? then Tagged(s, Reads(p, s.current, cell), r.value.tag) else s
  {}

  /** A rotation asked of an open ring, by its literal outcome. */
  lemma RotatesTo(s: State, pubSize: nat, handle: Handle, priv: Option<Key>, pub: Bytes, pair: bool)
    requires Sane(s)
    ensures var (s', r) := Rotated(s, pubSize, handle, priv, pub, pair);
            && (r.Ok? <==> priv.Some? && |pub| == pubSize && pair && !s.closed && s.current.value.pub != pub)
            && (r == Err(PairMismatch) <==> priv.Some? && |pub| == pubSize && !pair)
            && (r == Err(RingClosed) <==> priv.Some? && |pub| == pubSize && pair && s.closed)
            && (r.Err? ==> s' == s)
            && (r.Ok? ==>
                  && r.value == (s.current.value.epoch + 1) % 0x1_0000_0000
                  && s'.current == Some(OnionKey(r.value, handle, priv.value, pub, {})) && s'.previous == s.current && !s'.closed
                  && s'.released == if s.previous.Some? then s.released + [s.previous.value.handle] else s.released)
  {}

  /** A release lets the older key go and nothing else; closing lets both go for good. */
  lemma LetGo(s: State)
    requires Sane(s)
    ensures var r := Retired(s);
            && r.current == s.current && r.previous == None && r.closed == s.closed
            && r.released == if s.previous.Some? then s.released + [s.previous.value.handle] else s.released
    ensures var z := Closed(s);
            && z.current == None && z.previous == None && z.closed
            && (s.closed ==> z == s)
            && (!s.closed ==> z.released == s.released + [s.current.value.handle]
                                            + if s.previous.Some? then [s.previous.value.handle] else [])
  {}

  class OnionRing {
    const pubSize: nat
    const cacheMax: nat
    var current: Option<OnionKey>
    var previous: Option<OnionKey>
    var closed: bool
    var released: seq<Handle>

    function Value(): State
      reads this
    {
      State(current, previous, closed, released)
    }

    constructor (pubSize: nat, cacheSize: int, handle: Handle, priv: Key, pub: Bytes)
      ensures this.pubSize == pubSize && cacheMax == CacheSize(cacheSize) && Value() == Fresh(handle, priv, pub)
    {
      this.pubSize := pubSize;
      cacheMax := CacheSize(cacheSize);
      current := Some(OnionKey(0, handle, priv, pub, {}));
      previous, closed, released := None, false, [];
    }

    method Rotate(handle: Handle, priv: Option<Key>, pub: Bytes, pair: bool) returns (r: Result<nat, RingError>)
      requires !closed ==> current.Some?
      modifies this
      ensures (Value(), r) == Rotated(old(Value()), pubSize, handle, priv, pub, pair)
    {
      if priv.None? || |pub| != pubSize {
        return Err(BadOnionKey);
      }
      if !pair {
        return Err(PairMismatch);
      }
      if closed {
        return Err(RingClosed);
      }
      if pub == current.value.pub {
        return Err(BadOnionKey);
      }
      if previous.Some? {
        released := released + [previous.value.handle];
      }
      assert released == old(released) + Freed(previous);
      previous := current;
      current := Some(OnionKey((previous.value.epoch + 1) % TWO32, handle, priv.value, pub, {}));
      return Ok(current.value.epoch);
    }

    method Retire()
      modifies this
      ensures Value() == Retired(old(Value()))
    {
      if previous.Some? {
        released := released + [previous.value.handle];
        previous := None;
      }
    }

    method Close()
      modifies this
      ensures Value() == Closed(old(Value()))
    {
      var keys := [current, previous];
      ghost var before := released;
      for i := 0 to 2
        invariant current == old(current) && previous == old(previous) && closed == old(closed)
        invariant released == before + (if i > 0 then Freed(current) else []) + (if i > 1 then Freed(previous) else [])
      {
        if keys[i].Some? {
          released := released + [keys[i].value.handle];
        }
      }
      current, previous, closed := None, None, true;
    }

    /**
     Tries every live key to the end. Each key that opens hands out a cell key:
     held counts those handed out and not released, which is one on success and
     none on any failure.
     */
    method Open(p: Provider, cell: Cell) returns (r: Result<SetupLayer, RingError>, held: nat)
      requires Lengths(p.aead) && forall s, w, c, n :: |p.derive(s, w, c, n)| == n
      modifies this
      ensures (Value(), r) == Tried(old(Value()), p, cacheMax, cell)
      ensures held == if r.Ok? then 1 else 0
    {
      held := 0;
      if closed {
        return Err(RingClosed), held;
      }
      var keys := [current, previous];
      var layer: Option<SetupLayer>, slot: nat := None, 0;
      for i := 0 to 2
        invariant held == if layer.Some? then 1 else 0
        invariant layer.Some? ==> slot < i && keys[slot].Some?
        invariant layer == if i > 0 && Look(p, current, cell).Some? then Look(p, current, cell)
                           else if i > 1 then Look(p, previous, cell) else None
        invariant layer.Some? ==> slot == if Look(p, current, cell).Some? then 0 else 1
      {
        if keys[i].Some? {
          var read := OpenSetup(p, keys[i].value.priv, keys[i].value.pub, cell);
          if read.Ok? {
            held := held + 1;
            if layer.None? {
              layer, slot := Some(read.value), i;
            } else {
              held := held - 1;
            }
          }
        }
      }
      if layer.None? {
        return Err(RingError.NotOpened), held;
      }
      var why := TagVerdict(cacheMax, keys[slot].value.setups, layer.value.tag);
      if why.Some? {
        held := held - 1;
        return Err(TagRefused(why.value)), held;
      }
      var burned := Some(Burn(keys[slot].value, layer.value.tag));
      if slot == 0 {
        current := burned;
      } else {
        previous := burned;
      }
      return Ok(layer.value), held;
    }
  }

  // -------------------------------------------------------------- whole runs

  datatype Call =
    | DoRotate(handle: Handle, priv: Option<Key>, pub: Bytes, pair: bool)
    | DoRetire
    | DoClose
    | DoOpen(cell: Cell)

  /** A setup let through: the key that opened it, its tag and the cell. */
  datatype Admission = Admission(priv: Key, pub: Bytes, tag: SetupTag, cell: Cell)

  /** A ring's past: its state, the buffers and public keys handed to it, the buffers it took, the setups it let through. */
  datatype Past = Past(s: State, handles: set<Handle>, pubs: set<Bytes>, taken: set<Handle>, admitted: seq<Admission>)

  function Begin(handle: Handle, priv: Key, pub: Bytes): Past {
    Past(Fresh(handle, priv, pub), {handle}, {pub}, {handle}, [])
  }

  /** No key pair is handed in twice. */
  predicate NewPair(h: Past, call: Call) {
    call.DoRotate? ==> call.handle !in h.handles && call.pub !in h.pubs
  }

  ghost function Do(p: Provider, pubSize: nat, max: nat, h: Past, call: Call): Past
    requires Ready(p)
  {
    match call
    case DoRotate(handle, priv, pub, pair) =>
      var (s, r) := Rotated(h.s, pubSize, handle, priv, pub, pair);
      Past(s, h.handles + {handle}, h.pubs + {pub}, if r.Ok? then h.taken + {handle} else h.taken, h.admitted)
    case DoRetire => h.(s := Retired(h.s))
    case DoClose => h.(s := Closed(h.s))
    case DoOpen(cell) =>
      var (s, r) := Tried(h.s, p, max, cell);
      if r.Err? then h.(s := s)
      else
        var owner := if Look(p, h.s.current, cell).Some? then h.s.current else h.s.previous;
        if owner.None? then h.(s := s) else h.(s := s, admitted := h.admitted + [Admission(owner.value.priv, owner.value.pub, r.value.tag, cell)])
  }

  /** The keys the ring holds. */
  function Live(s: State): set<OnionKey> {
    (if s.current.Some? then {s.current.value} else {}) + (if s.previous.Some? then {s.previous.value} else {})
  }

  ghost predicate NoRepeat<T>(xs: seq<T>) {
    forall i, j :: 0 <= i < j < |xs| ==> xs[i] != xs[j]
  }

  ghost predicate Sane(s: State) {
    && (s.closed <==> s.current.None?)
    && (s.current.None? ==> s.previous.None?)
    && (s.previous.Some? ==>
          && s.current.value.epoch == (s.previous.value.epoch + 1) % TWO32
          && s.current.value.handle != s.previous.value.handle && s.current.value.pub != s.previous.value.pub)
  }

  /** Every buffer taken is either held or released, and released once. */
  ghost predicate Accounted(h: Past) {
    && NoRepeat(h.s.released)
    && (forall k :: k in Live(h.s) ==> k.handle !in h.s.released && k.handle in h.taken)
    && (forall x :: x in h.s.released ==> x in h.taken)
    && (forall x :: x in h.taken ==> x in h.handles && (x in h.s.released || exists k :: k in Live(h.s) && k.handle == x))
  }

  /** Every setup let through under a key still held has its tag burned there. */
  ghost predicate Burned(h: Past) {
    && (forall k :: k in Live(h.s) ==> k.pub in h.pubs)
    && (forall i :: 0 <= i < |h.admitted| ==> h.admitted[i].pub in h.pubs)
    && (forall i, k :: 0 <= i < |h.admitted| && k in Live(h.s) && k.pub == h.admitted[i].pub ==>
          h.admitted[i].tag in k.setups && h.admitted[i].priv == k.priv)
    && (forall i, j :: 0 <= i < j < |h.admitted| && h.admitted[i].pub == h.admitted[j].pub ==>
          h.admitted[i].priv == h.admitted[j].priv)
    && (forall i, j :: 0 <= i < j < |h.admitted| ==>
          h.admitted[i].pub != h.admitted[j].pub || h.admitted[i].tag != h.admitted[j].tag)
  }

  /** Every setup let through opened under its key, with its tag. */
  ghost predicate Genuine(p: Provider, h: Past)
    requires Ready(p)
  {
    forall a :: a in h.admitted ==>
      OpenSetup(p, a.priv, a.pub, a.cell).Ok? && OpenSetup(p, a.priv, a.pub, a.cell).value.tag == a.tag
  }

  ghost predicate Kept(h: Past) {
    Sane(h.s) && Accounted(h) && Burned(h)
  }

  lemma NoRepeatSnoc<T>(xs: seq<T>, x: T)
    requires NoRepeat(xs) && x !in xs
    ensures NoRepeat(xs + [x])
  {}

  lemma RotateKeeps(p: Provider, pubSize: nat, max: nat, h: Past, handle: Handle, priv: Option<Key>, pub: Bytes, pair: bool)
    requires Ready(p) && Kept(h) && NewPair(h, DoRotate(handle, priv, pub, pair))
    ensures Kept(Do(p, pubSize, max, h, DoRotate(handle, priv, pub, pair)))
  {
    var h' := Do(p, pubSize, max, h, DoRotate(handle, priv, pub, pair));
    if Rotated(h.s, pubSize, handle, priv, pub, pair).1.Ok? {
      assert h.s.current.value in Live(h.s);
      assert handle !in h.s.released;
      assert h'.s.current.value in Live(h'.s) && h.s.current.value in Live(h'.s);
      if h.s.previous.Some? {
        assert h.s.previous.value in Live(h.s);
        NoRepeatSnoc(h.s.released, h.s.previous.value.handle);
      } else {
        assert h.s.released + [] == h.s.released;
      }
    } else {
      assert Live(h'.s) == Live(h.s);
    }
  }

  lemma RetireKeeps(p: Provider, pubSize: nat, max: nat, h: Past)
    requires Ready(p) && Kept(h)
    ensures Kept(Do(p, pubSize, max, h, DoRetire))
  {
    var h' := Do(p, pubSize, max, h, DoRetire);
    if h.s.previous.Some? {
      assert h.s.previous.value in Live(h.s) && h.s.current.value in Live(h.s);
      NoRepeatSnoc(h.s.released, h.s.previous.value.handle);
      assert h'.s.current.value in Live(h'.s);
    } else {
      assert h.s.released + [] == h.s.released;
    }
  }

  lemma CloseKeeps(p: Provider, pubSize: nat, max: nat, h: Past)
    requires Ready(p) && Kept(h)
    ensures Kept(Do(p, pubSize, max, h, DoClose))
  {
    var h' := Do(p, pubSize, max, h, DoClose);
    var some := h.s.released + Freed(h.s.current);
    if h.s.current.Some? {
      assert h.s.current.value in Live(h.s);
      NoRepeatSnoc(h.s.released, h.s.current.value.handle);
    } else {
      assert some == h.s.released;
    }
    if h.s.previous.Some? {
      assert h.s.previous.value in Live(h.s);
      NoRepeatSnoc(some, h.s.previous.value.handle);
    } else {
      assert some + [] == some;
    }
    assert Live(h'.s) == {};
  }

  /** What an attempt does, given what each key made of the cell. */
  function OpenedWith(h: Past, max: nat, now: Option<SetupLayer>, before: Option<SetupLayer>, cell: Cell): Past
    requires (now.Some? ==> h.s.current.Some?) && (before.Some? ==> h.s.previous.Some?)
  {
    var (s, r) := Decided(h.s, max, now, before);
    var owner := if now.Some? then h.s.current else h.s.previous;
    if r.Err? || owner.None? then h.(s := s)
    else h.(s := s, admitted := h.admitted + [Admission(owner.value.priv, owner.value.pub, r.value.tag, cell)])
  }

  lemma OpenUnfolds(p: Provider, pubSize: nat, max: nat, h: Past, cell: Cell)
    requires Ready(p)
    ensures Do(p, pubSize, max, h, DoOpen(cell)) == OpenedWith(h, max, Look(p, h.s.current, cell), Look(p, h.s.previous, cell), cell)
    ensures Look(p, h.s.current, cell).Some? ==> h.s.current.Some?
    ensures Look(p, h.s.previous, cell).Some? ==> h.s.previous.Some?
  {}

  lemma OpenedKeeps(h: Past, max: nat, now: Option<SetupLayer>, before: Option<SetupLayer>, cell: Cell)
    requires Kept(h) && (now.Some? ==> h.s.current.Some?) && (before.Some? ==> h.s.previous.Some?)
    ensures Kept(OpenedWith(h, max, now, before, cell))
  {
    var (s', r) := Decided(h.s, max, now, before);
    if r.Ok? {
      var owner := if now.Some? then h.s.current.value else h.s.previous.value;
      DecidedKeeps(h, s', r.value, max, now, before, owner, cell);
    }
  }

  lemma OpenKeeps(p: Provider, pubSize: nat, max: nat, h: Past, cell: Cell)
    requires Ready(p) && Kept(h)
    ensures Kept(Do(p, pubSize, max, h, DoOpen(cell)))
  {
    OpenUnfolds(p, pubSize, max, h, cell);
    OpenedKeeps(h, max, Look(p, h.s.current, cell), Look(p, h.s.previous, cell), cell);
  }

  lemma DecidedKeeps(h: Past, s': State, layer: SetupLayer, max: nat, now: Option<SetupLayer>, before: Option<SetupLayer>, owner: OnionKey, cell: Cell)
    requires Kept(h) && (now.Some? ==> h.s.current.Some?) && (before.Some? ==> h.s.previous.Some?)
    requires Decided(h.s, max, now, before) == (s', Ok(layer))
    requires owner == if now.Some? then h.s.current.value else h.s.previous.value
    ensures Kept(h.(s := s', admitted := h.admitted + [Admission(owner.priv, owner.pub, layer.tag, cell)]))
  {
    var h' := h.(s := s', admitted := h.admitted + [Admission(owner.priv, owner.pub, layer.tag, cell)]);
    var other := if now.Some? then h.s.previous else h.s.current;
    var burned := Burn(owner, layer.tag);
    assert owner in Live(h.s) && burned in Live(h'.s);
    assert forall k :: k in Live(h'.s) <==> k == burned || (other.Some? && k == other.value);
    assert other.Some? ==> other.value in Live(h.s);
    AdmitKeeps(h, h', owner, burned, layer.tag, cell);
  }

  /** One more admission, under a tag its key had not seen. */
  lemma AdmitKeeps(h: Past, h': Past, owner: OnionKey, burned: OnionKey, tag: SetupTag, cell: Cell)
    requires Kept(h) && Sane(h'.s) && owner in Live(h.s) && tag !in owner.setups && burned == Burn(owner, tag)
    requires h' == h.(s := h'.s, admitted := h.admitted + [Admission(owner.priv, owner.pub, tag, cell)]) && h'.s.released == h.s.released
    requires forall k :: k in Live(h'.s) <==> k == burned || (k in Live(h.s) && k != owner)
    requires forall k :: k in Live(h.s) && k != owner ==> k.pub != owner.pub
    ensures Kept(h')
  {
    forall x | x in h'.taken ensures x in h'.s.released || exists k :: k in Live(h'.s) && k.handle == x {
      if x !in h'.s.released {
        var k :| k in Live(h.s) && k.handle == x;
        if k == owner {
          assert burned in Live(h'.s);
        } else {
          assert k in Live(h'.s);
        }
      }
    }
  }

  ghost function After(p: Provider, pubSize: nat, max: nat, first: Past, calls: seq<Call>): Past
    requires Ready(p)
  {
    if calls == [] then first
    else Do(p, pubSize, max, After(p, pubSize, max, first, calls[..|calls| - 1]), calls[|calls| - 1])
  }

  ghost predicate AllNew(p: Provider, pubSize: nat, max: nat, first: Past, calls: seq<Call>)
    requires Ready(p)
  {
    forall k :: 0 <= k < |calls| ==> NewPair(After(p, pubSize, max, first, calls[..k]), calls[k])
  }

  lemma {:induction false} RunKept(p: Provider, pubSize: nat, max: nat, handle: Handle, priv: Key, pub: Bytes, calls: seq<Call>)
    requires Ready(p) && AllNew(p, pubSize, max, Begin(handle, priv, pub), calls)
    ensures Kept(After(p, pubSize, max, Begin(handle, priv, pub), calls))
  {
    var first := Begin(handle, priv, pub);
    if calls == [] {
      assert Live(first.s) == {first.s.current.value};
      assert first.s.current.value in Live(first.s);
    } else {
      var init, call := calls[..|calls| - 1], calls[|calls| - 1];
      assert forall k :: 0 <= k < |init| ==> init[..k] == calls[..k];
      RunKept(p, pubSize, max, handle, priv, pub, init);
      var h := After(p, pubSize, max, first, init);
      match call
      case DoRotate(x, k, b, pair) => RotateKeeps(p, pubSize, max, h, x, k, b, pair);
      case DoRetire => RetireKeeps(p, pubSize, max, h);
      case DoClose => CloseKeeps(p, pubSize, max, h);
      case DoOpen(cell) => OpenKeeps(p, pubSize, max, h, cell);
    }
  }

  /** What a caller may rely on. */
  ghost predicate Safe(h: Past) {
    && (h.s.previous.Some? ==>
          h.s.current.Some? && h.s.current.value.epoch == (h.s.previous.value.epoch + 1) % TWO32)
    && NoRepeat(h.s.released)
    && (forall x :: x in h.taken ==> (x in h.s.released <==> !(exists k :: k in Live(h.s) && k.handle == x)))
    && (forall x :: x in h.s.released ==> x in h.taken)
    && (forall i, j :: 0 <= i < j < |h.admitted| ==>
          h.admitted[i].pub != h.admitted[j].pub || h.admitted[i].tag != h.admitted[j].tag)
  }

  /**
   In every run in which no key pair is handed in twice: at most two keys are
   held, of consecutive epochs; a buffer the ring took is released exactly once,
   when its key leaves; and no tag is let through twice under one key.
   */
  lemma {:induction false} RingSafety(p: Provider, pubSize: nat, max: nat, handle: Handle, priv: Key, pub: Bytes, calls: seq<Call>)
    requires Ready(p) && AllNew(p, pubSize, max, Begin(handle, priv, pub), calls)
    ensures Safe(After(p, pubSize, max, Begin(handle, priv, pub), calls))
  {
    RunKept(p, pubSize, max, handle, priv, pub, calls);
    KeptIsSafe(After(p, pubSize, max, Begin(handle, priv, pub), calls));
  }

  lemma KeptIsSafe(h: Past)
    requires Kept(h)
    ensures Safe(h)
  {}

  lemma {:induction false} RunGenuine(p: Provider, pubSize: nat, max: nat, first: Past, calls: seq<Call>)
    requires Ready(p) && first.admitted == []
    ensures Genuine(p, After(p, pubSize, max, first, calls))
  {
    if calls != [] {
      RunGenuine(p, pubSize, max, first, calls[..|calls| - 1]);
    }
  }

  /** No setup opens under two public keys: each stands in the transcript its layer was sealed under. */
  ghost predicate Exclusive(p: Provider)
    requires Ready(p)
  {
    forall cell: Cell, k, b, k', b' ::
      OpenSetup(p, k, b, cell).Ok? && OpenSetup(p, k', b', cell).Ok? ==> b == b'
  }

  /** One setup: the same header and the same layer, whatever refill stands behind it. */
  ghost predicate SameSetup(p: Provider, x: Cell, y: Cell) {
    && HeaderOf(x).Some? && HeaderOf(x) == HeaderOf(y)
    && var len := SetupLayerLen(p, HeaderOf(x).value.counter);
       0 <= len <= BODY_SIZE && BodyOf(x)[..len] == BodyOf(y)[..len]
  }

  /** Opening reads the header and the layer and nothing behind it. */
  lemma SameSetupOpensAlike(p: Provider, priv: Key, pub: Bytes, x: Cell, y: Cell)
    requires Ready(p) && SameSetup(p, x, y)
    ensures OpenSetup(p, priv, pub, x) == OpenSetup(p, priv, pub, y)
  {}

  /** The same ephemeral key under the same header: what a tag is derived from besides the relay's own key. */
  ghost predicate SameEphemeral(p: Provider, x: Cell, y: Cell) {
    && HeaderOf(x) == HeaderOf(y) && p.pubLen <= BODY_SIZE && BodyOf(x)[..p.pubLen] == BodyOf(y)[..p.pubLen]
  }

  lemma SameEphemeralSameTag(p: Provider, priv: Key, pub: Bytes, x: Cell, y: Cell)
    requires Ready(p) && SameEphemeral(p, x, y) && OpenSetup(p, priv, pub, x).Ok? && OpenSetup(p, priv, pub, y).Ok?
    ensures OpenSetup(p, priv, pub, x).value.tag == OpenSetup(p, priv, pub, y).value.tag
  {
    var len := SetupLayerLen(p, HeaderOf(x).value.counter);
    assert BodyOf(x)[..len][..p.pubLen] == BodyOf(x)[..p.pubLen];
    assert BodyOf(y)[..len][..p.pubLen] == BodyOf(y)[..p.pubLen];
  }

  lemma AdmittedDiffer(p: Provider, h: Past, i: nat, j: nat)
    requires Ready(p) && Kept(h) && Genuine(p, h) && i < j < |h.admitted|
    ensures h.admitted[i].pub == h.admitted[j].pub ==> !SameEphemeral(p, h.admitted[i].cell, h.admitted[j].cell)
    ensures Exclusive(p) ==> !SameSetup(p, h.admitted[i].cell, h.admitted[j].cell)
  {
    var a, b := h.admitted[i], h.admitted[j];
    assert a in h.admitted && b in h.admitted;
    if a.pub == b.pub && SameEphemeral(p, a.cell, b.cell) {
      SameEphemeralSameTag(p, a.priv, a.pub, a.cell, b.cell);
    }
    if Exclusive(p) && SameSetup(p, a.cell, b.cell) {
      SameSetupOpensAlike(p, a.priv, a.pub, a.cell, b.cell);
    }
  }

  /**
   Each setup is let through at most once, across rotations and releases: no two
   admitted cells are the same setup, with whatever refill. Under one key no two
   even share an ephemeral key and a header.
   */
  lemma SetupOnce(p: Provider, pubSize: nat, max: nat, handle: Handle, priv: Key, pub: Bytes, calls: seq<Call>)
    requires Ready(p) && AllNew(p, pubSize, max, Begin(handle, priv, pub), calls)
    ensures var h := After(p, pubSize, max, Begin(handle, priv, pub), calls);
            && (forall i, j :: 0 <= i < j < |h.admitted| && h.admitted[i].pub == h.admitted[j].pub ==>
                  !SameEphemeral(p, h.admitted[i].cell, h.admitted[j].cell))
            && (Exclusive(p) ==> forall i, j :: 0 <= i < j < |h.admitted| ==> !SameSetup(p, h.admitted[i].cell, h.admitted[j].cell))
  {
    RunKept(p, pubSize, max, handle, priv, pub, calls);
    RunGenuine(p, pubSize, max, Begin(handle, priv, pub), calls);
    var h := After(p, pubSize, max, Begin(handle, priv, pub), calls);
    forall i, j | 0 <= i < j < |h.admitted|
      ensures h.admitted[i].pub == h.admitted[j].pub ==> !SameEphemeral(p, h.admitted[i].cell, h.admitted[j].cell)
      ensures Exclusive(p) ==> !SameSetup(p, h.admitted[i].cell, h.admitted[j].cell)
    {
      AdmittedDiffer(p, h, i, j);
    }
  }
}
