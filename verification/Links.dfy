/** One direction of a link (link/link.go): numbered frames, padding and all. */
module Links {
  import opened Results
  import opened ByteStrings
  import opened Ciphers
  import opened Nonces
  import opened Cells
  import opened Pacing

  function FrameNonce(size: nat, number: Uint64): (n: Bytes)
    requires size >= 8
    ensures |n| == size
  {
    Zeros(size - 8) + U64(number)
  }

  lemma FrameNonceInjective(size: nat, i: Uint64, j: Uint64)
    requires size >= 8 && FrameNonce(size, i) == FrameNonce(size, j)
    ensures i == j
  {
    assert FrameNonce(size, i)[size - 8..] == U64(i) && FrameNonce(size, j)[size - 8..] == U64(j);
    U64Injective(i, j);
  }

  /** What one direction's key is used for, at both of its ends. */
  datatype Channel = Channel(key: Key, aead: Aead)

  predicate Usable(d: Channel) {
    d.aead.nonceSize >= 8
  }

  function Next(n: Uint64): Uint64 {
    (n + 1) % TWO64
  }

  function FrameOf(d: Channel, number: Uint64, cell: Cell): (f: Bytes)
    requires Usable(d)
  {
    d.aead.seal(d.key, FrameNonce(d.aead.nonceSize, number), cell, [])
  }

  /** A frame opened under the number it must have; the size of a frame is fixed. */
  function Opened(d: Channel, number: Uint64, frame: Bytes): (c: Option<Cell>)
    requires Usable(d)
  {
    if |frame| != CELL_SIZE + d.aead.overhead then None
    else match d.aead.open(d.key, FrameNonce(d.aead.nonceSize, number), frame, [])
      case Some(p) => if |p| == CELL_SIZE then Some(p) else None
      case None => None
  }

  class Sender {
    const d: Channel
    var number: Uint64
    var failed: bool

    constructor (d: Channel)
      ensures this.d == d && number == 0 && !failed
    {
      this.d, number, failed := d, 0, false;
    }

    /** The frame that goes to the socket, which takes it or not; after one failure nothing is sealed any more. */
    method WriteCell(cell: Cell, taken: bool) returns (frame: Option<Bytes>)
      requires Usable(d)
      modifies this
      ensures old(failed) ==> frame == None && failed && number == old(number)
      ensures !old(failed) ==> frame == Some(FrameOf(d, old(number), cell)) && number == Next(old(number)) && failed == !taken
    {
      if failed {
        return None;
      }
      frame := Some(FrameOf(d, number, cell));
      number := (number + 1) % TWO64;
      if !taken {
        failed := true;
      }
    }
  }

  /** The frames a read consumes, up to and including the first that is not padding. */
  function ReadOn(d: Channel, number: Uint64, frames: seq<Bytes>): (r: (Option<Cell>, Uint64, seq<Bytes>))
    requires Usable(d)
    decreases |frames|
  {
    if frames == [] then (None, number, [])
    else match Opened(d, number, frames[0])
      case None => (None, number, frames[1..])
      case Some(c) => if IsPadding(c) then ReadOn(d, Next(number), frames[1..]) else (Some(c), Next(number), frames[1..])
  }

  /** The frames of these cells, the first under this number. */
  function FramesOf(d: Channel, number: Uint64, cells: seq<Cell>): seq<Bytes>
    requires Usable(d)
    decreases |cells|
  {
    if cells == [] then [] else [FrameOf(d, number, cells[0])] + FramesOf(d, Next(number), cells[1..])
  }

  /** The number due after n more frames. */
  function After(number: Uint64, n: nat): Uint64
    decreases n
  {
    if n == 0 then number else After(Next(number), n - 1)
  }

  /** Frames that all open to padding, one after the other. */
  predicate AllPadding(d: Channel, number: Uint64, frames: seq<Bytes>)
    requires Usable(d)
    decreases |frames|
  {
    frames == [] ||
    (var c := Opened(d, number, frames[0]);
     c.Some? && IsPadding(c.value) && AllPadding(d, Next(number), frames[1..]))
  }

  lemma {:induction false} PaddingOpens(d: Channel, number: Uint64, padding: seq<Cell>)
    requires Usable(d) && Sound(d.aead) && forall i :: 0 <= i < |padding| ==> IsPadding(padding[i])
    ensures AllPadding(d, number, FramesOf(d, number, padding)) && |FramesOf(d, number, padding)| == |padding|
    decreases |padding|
  {
    if padding != [] {
      assert Opened(d, number, FrameOf(d, number, padding[0])) == Some(padding[0]);
      PaddingOpens(d, Next(number), padding[1..]);
    }
  }

  lemma {:induction false} ReadsPast(d: Channel, number: Uint64, frames: seq<Bytes>, rest: seq<Bytes>)
    requires Usable(d) && AllPadding(d, number, frames)
    ensures ReadOn(d, number, frames + rest) == ReadOn(d, After(number, |frames|), rest)
    decreases |frames|
  {
    if frames == [] {
      assert frames + rest == rest;
    } else {
      assert (frames + rest)[1..] == frames[1..] + rest;
      ReadsPast(d, Next(number), frames[1..], rest);
    }
  }

  /**
   Behind any padding, a read gives the next cell and goes no further; a frame that
   does not open under its number gives nothing and leaves the number due.
   */
  lemma ReadsNext(d: Channel, number: Uint64, padding: seq<Cell>, frame: Bytes, rest: seq<Bytes>)
    requires Usable(d) && Sound(d.aead) && forall i :: 0 <= i < |padding| ==> IsPadding(padding[i])
    ensures var due, frames := After(number, |padding|), FramesOf(d, number, padding) + ([frame] + rest);
            && (forall cell: Cell :: !IsPadding(cell) && frame == FrameOf(d, due, cell) ==>
                  ReadOn(d, number, frames) == (Some(cell), After(number, |padding| + 1), rest))
            && (Opened(d, due, frame).None? ==> ReadOn(d, number, frames) == (None, due, rest))
  {
    var due := After(number, |padding|);
    PaddingOpens(d, number, padding);
    ReadsPast(d, number, FramesOf(d, number, padding), [frame] + rest);
    assert ([frame] + rest)[1..] == rest;
    AfterOne(number, |padding|);
  }

  lemma {:induction false} AfterOne(number: Uint64, n: nat)
    ensures Next(After(number, n)) == After(number, n + 1)
    decreases n
  {
    if n > 0 {
      AfterOne(Next(number), n - 1);
    }
  }

  class Receiver {
    const d: Channel
    var number: Uint64
    var socket: seq<Bytes>

    constructor (d: Channel, socket: seq<Bytes>)
      ensures this.d == d && number == 0 && this.socket == socket
    {
      this.d, number, this.socket := d, 0, socket;
    }

    method ReadFrame() returns (c: Option<Cell>)
      requires Usable(d)
      modifies this
      ensures old(socket) == [] ==> c == None && number == old(number) && socket == []
      ensures old(socket) != [] ==>
                && socket == old(socket)[1..] && c == Opened(d, old(number), old(socket)[0])
                && number == if c.Some? then Next(old(number)) else old(number)
    {
      if socket == [] {
        return None;
      }
      c := Opened(d, number, socket[0]);
      socket := socket[1..];
      if c.Some? {
        number := (number + 1) % TWO64;
      }
    }

    method ReadCell() returns (c: Option<Cell>)
      requires Usable(d)
      modifies this
      ensures (c, number, socket) == ReadOn(d, old(number), old(socket))
    {
      while true
        invariant ReadOn(d, old(number), old(socket)) == ReadOn(d, number, socket)
        decreases |socket|
      {
        if socket == [] {
          return None;
        }
        c := ReadFrame();
        if c.None? || !IsPadding(c.value) {
          return;
        }
      }
    }
  }

  // ------------------------------------------------------------------------- runs

  /** Both ends: what was sealed, in order, and what was opened, in order. */
  datatype Ends = Ends(number: Uint64, failed: bool, written: seq<Cell>, due: Uint64, read: seq<Cell>)

  /** A cell written, the socket taking it or not; or any bytes at all at the far end. */
  datatype Event = Write(cell: Cell, taken: bool) | Arrives(frame: Bytes)

  function NumberOf(i: nat): Uint64 {
    i % TWO64
  }

  function Sealings(d: Channel, written: seq<Cell>): set<Sealing>
    requires Usable(d)
  {
    set i | 0 <= i < |written| :: Sealing(d.key, FrameNonce(d.aead.nonceSize, NumberOf(i)), written[i], [])
  }

  function Guard(d: Channel, written: seq<Cell>): (g: Channel)
    requires Usable(d)
    ensures Usable(g)
  {
    d.(aead := Guarded(d.aead, Sealings(d, written)))
  }

  function Step(d: Channel, s: Ends, e: Event): Ends
    requires Usable(d)
  {
    match e
    case Write(cell, taken) =>
      if s.failed then s else s.(number := Next(s.number), failed := !taken, written := s.written + [cell])
    case Arrives(frame) =>
      var c := Opened(Guard(d, s.written), s.due, frame);
      if c.Some? then s.(due := Next(s.due), read := s.read + [c.value]) else s
  }

  function Run(d: Channel, events: seq<Event>): Ends
    requires Usable(d)
  {
    if events == [] then Ends(0, false, [], 0, []) else Step(d, Run(d, events[..|events| - 1]), events[|events| - 1])
  }

  /** Both numbers count what their end has done, and nothing was read that was not written just there. */
  ghost predicate InStep(s: Ends) {
    && s.number == NumberOf(|s.written|) && s.due == NumberOf(|s.read|)
    && |s.read| <= |s.written| && s.read == s.written[..|s.read|]
  }

  lemma NextNumber(i: nat)
    ensures Next(NumberOf(i)) == NumberOf(i + 1)
  {}

  lemma SmallNumber(i: nat)
    requires i < TWO64
    ensures NumberOf(i) == i
  {}

  /** Below the limit, a nonce in the log belongs to the frame of its number. */
  lemma SealedThere(d: Channel, written: seq<Cell>, number: Uint64, p: Bytes)
    requires Usable(d) && |written| < TWO64
    requires Sealing(d.key, FrameNonce(d.aead.nonceSize, number), p, []) in Sealings(d, written)
    ensures number < |written| && written[number] == p
  {
    var i := SealedAs(d, written, FrameNonce(d.aead.nonceSize, number), p);
    FrameNonceInjective(d.aead.nonceSize, NumberOf(i), number);
    SmallNumber(i);
  }

  lemma SealedAs(d: Channel, written: seq<Cell>, nonce: Bytes, p: Bytes) returns (i: nat)
    requires Usable(d) && Sealing(d.key, nonce, p, []) in Sealings(d, written)
    ensures i < |written| && FrameNonce(d.aead.nonceSize, NumberOf(i)) == nonce && written[i] == p
  {
    i :| 0 <= i < |written| && Sealing(d.key, FrameNonce(d.aead.nonceSize, NumberOf(i)), written[i], []) == Sealing(d.key, nonce, p, []);
  }

  lemma OpenedSealed(d: Channel, written: seq<Cell>, number: Uint64, frame: Bytes)
    requires Usable(d) && Sound(d.aead) && Opened(Guard(d, written), number, frame).Some?
    ensures Sealing(d.key, FrameNonce(d.aead.nonceSize, number), Opened(Guard(d, written), number, frame).value, []) in Sealings(d, written)
  {
    GuardedOpens(d.aead, Sealings(d, written), d.key, FrameNonce(d.aead.nonceSize, number), frame, [],
                 Opened(Guard(d, written), number, frame).value);
  }

  /** What opens under a number was sealed under it: the frame due, if it was sealed at all. */
  lemma OpensInTurn(d: Channel, s: Ends, frame: Bytes)
    requires Usable(d) && Sound(d.aead) && InStep(s) && |s.written| < TWO64
    requires Opened(Guard(d, s.written), s.due, frame).Some?
    ensures |s.read| < |s.written| && Opened(Guard(d, s.written), s.due, frame).value == s.written[|s.read|]
  {
    OpenedSealed(d, s.written, s.due, frame);
    SealedThere(d, s.written, s.due, Opened(Guard(d, s.written), s.due, frame).value);
  }

  lemma StepKeeps(d: Channel, s: Ends, e: Event)
    requires Usable(d) && Sound(d.aead) && InStep(s) && |Step(d, s, e).written| < TWO64
    ensures InStep(Step(d, s, e))
  {
    NextNumber(|s.written|);
    NextNumber(|s.read|);
    match e
    case Write(_, _) =>
    case Arrives(frame) =>
      if Opened(Guard(d, s.written), s.due, frame).Some? {
        OpensInTurn(d, s, frame);
        assert s.written[..|s.read| + 1] == s.written[..|s.read|] + [s.written[|s.read|]];
      }
  }

  lemma {:induction false} InStepAlways(d: Channel, events: seq<Event>)
    requires Usable(d) && Sound(d.aead) && |Run(d, events).written| < TWO64
    ensures InStep(Run(d, events))
    decreases |events|
  {
    if events != [] {
      InStepAlways(d, events[..|events| - 1]);
      StepKeeps(d, Run(d, events[..|events| - 1]), events[|events| - 1]);
    }
  }

  ghost predicate PrefixOf(x: seq<Cell>, y: seq<Cell>) {
    |x| <= |y| && x == y[..|x|]
  }

  lemma {:induction false} UnpaddedPrefix(frames: seq<Cell>, k: nat)
    requires k <= |frames|
    ensures PrefixOf(Unpadded(frames[..k]), Unpadded(frames))
    decreases |frames|
  {
    if k == |frames| {
      assert frames[..k] == frames;
    } else {
      var init := frames[..|frames| - 1];
      UnpaddedPrefix(init, k);
      assert init[..k] == frames[..k];
    }
  }

  /**
   Whatever bytes arrive, and in whatever order, what the far end passes on is a
   prefix of the cells written that are not padding: none invented, repeated,
   skipped or out of order.
   */
  lemma LinkInOrder(d: Channel, events: seq<Event>)
    requires Usable(d) && Sound(d.aead) && |Run(d, events).written| < TWO64
    ensures var s := Run(d, events);
            PrefixOf(s.read, s.written) && PrefixOf(Unpadded(s.read), Unpadded(s.written))
  {
    InStepAlways(d, events);
    var s := Run(d, events);
    UnpaddedPrefix(s.written, |s.read|);
  }

  /** The frame that is due is never refused. */
  lemma DueFrameOpens(d: Channel, events: seq<Event>)
    requires Usable(d) && Sound(d.aead) && |Run(d, events).written| < TWO64
    requires |Run(d, events).read| < |Run(d, events).written|
    ensures var s := Run(d, events);
            Step(d, s, Arrives(FrameOf(d, s.due, s.written[|s.read|]))).read == s.read + [s.written[|s.read|]]
  {
    InStepAlways(d, events);
    var s := Run(d, events);
    var i, p := |s.read|, s.written[|s.read|];
    var n := FrameNonce(d.aead.nonceSize, s.due);
    assert Sealing(d.key, FrameNonce(d.aead.nonceSize, NumberOf(i)), s.written[i], []) in Sealings(d, s.written);
    GuardedOpens(d.aead, Sealings(d, s.written), d.key, n, FrameOf(d, s.due, p), [], p);
  }

  /** After one write that the socket does not take nothing more is written, whatever is asked. */
  lemma {:induction false} FailureIsFinal(d: Channel, events: seq<Event>, k: nat)
    requires Usable(d) && k < |events| && events[k].Write? && !events[k].taken
    ensures Run(d, events).failed && Run(d, events).written == Run(d, events[..k + 1]).written
    decreases |events|
  {
    if k + 1 == |events| {
      assert events[..k + 1] == events;
    } else {
      assert events[..|events| - 1][..k + 1] == events[..k + 1];
      FailureIsFinal(d, events[..|events| - 1], k);
    }
  }

  /** Cells written one after the other, all of which the socket takes. */
  function Writes(cells: seq<Cell>): seq<Event> {
    if cells == [] then [] else Writes(cells[..|cells| - 1]) + [Write(cells[|cells| - 1], true)]
  }

  lemma {:induction false} AllWritten(d: Channel, cells: seq<Cell>)
    requires Usable(d)
    ensures var s := Run(d, Writes(cells)); s.written == cells && !s.failed && s.read == [] && s.due == 0
    decreases |cells|
  {
    if cells != [] {
      var init := cells[..|cells| - 1];
      AllWritten(d, init);
      assert Writes(cells)[..|Writes(cells)| - 1] == Writes(init);
    }
  }

  function Arrival(d: Channel, cells: seq<Cell>, k: nat): Event
    requires Usable(d) && k < |cells|
  {
    Arrives(FrameOf(d, NumberOf(k), cells[k]))
  }

  /** The frames of the first k of these cells. */
  function Frames(d: Channel, cells: seq<Cell>, k: nat): seq<Event>
    requires Usable(d) && k <= |cells|
  {
    if k == 0 then [] else Frames(d, cells, k - 1) + [Arrival(d, cells, k - 1)]
  }

  ghost predicate Delivered(d: Channel, events: seq<Event>, cells: seq<Cell>, k: nat)
    requires Usable(d) && k <= |cells|
  {
    Run(d, events).written == cells && Run(d, events).read == cells[..k]
  }

  lemma OneDelivered(d: Channel, events: seq<Event>, cells: seq<Cell>, k: nat)
    requires Usable(d) && Sound(d.aead) && k < |cells| < TWO64 && Delivered(d, events, cells, k)
    ensures Delivered(d, events + [Arrival(d, cells, k)], cells, k + 1)
  {
    assert (events + [Arrival(d, cells, k)])[..|events|] == events;
    DueFrameOpens(d, events);
    InStepAlways(d, events);
  }

  lemma {:induction false} FramesDelivered(d: Channel, before: seq<Event>, cells: seq<Cell>, k: nat)
    requires Usable(d) && Sound(d.aead) && |cells| < TWO64 && k <= |cells| && Delivered(d, before, cells, 0)
    ensures Delivered(d, before + Frames(d, cells, k), cells, k)
  {
    if k == 0 {
      assert before + [] == before;
    } else {
      FramesDelivered(d, before, cells, k - 1);
      OneDelivered(d, before + Frames(d, cells, k - 1), cells, k - 1);
      Regroup(before, Frames(d, cells, k - 1), [Arrival(d, cells, k - 1)]);
    }
  }

  lemma Regroup(a: seq<Event>, b: seq<Event>, c: seq<Event>)
    ensures a + b + c == a + (b + c)
  {}

  /** On a link that loses nothing, everything written is read. */
  lemma AllDelivered(d: Channel, cells: seq<Cell>)
    requires Usable(d) && Sound(d.aead) && |cells| < TWO64
    ensures Run(d, Writes(cells) + Frames(d, cells, |cells|)).read == cells
  {
    AllWritten(d, cells);
    FramesDelivered(d, Writes(cells), cells, |cells|);
  }

  /** While fewer than 2^64 frames are written, no two are sealed under one nonce. */
  lemma FrameNoncesDiffer(size: nat, i: nat, j: nat)
    requires size >= 8 && i < j < TWO64
    ensures FrameNonce(size, NumberOf(i)) != FrameNonce(size, NumberOf(j))
  {
    if FrameNonce(size, NumberOf(i)) == FrameNonce(size, NumberOf(j)) {
      FrameNonceInjective(size, NumberOf(i), NumberOf(j));
    }
  }
}
