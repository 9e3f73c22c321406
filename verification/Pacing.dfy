/** A bounded queue that a node empties on its own clock (relay/pace.go). */
module Pacing {
  import opened Results
  import opened ByteStrings
  import opened Cells
  import opened Nonces

  const DEFAULT_QUEUE_CELLS: nat := 64

  /** A size of zero, or less, stands for 64. */
  function QueueSize(size: int): (n: nat)
    ensures size > 0 ==> n == size
    ensures size <= 0 ==> n == 64
  {
    if size <= 0 then DEFAULT_QUEUE_CELLS else size
  }

  function PaddingCell(): (c: Cell)
    ensures IsPadding(c)
  {
    NewCell(Header(Padding, 0, 0), Zeros(BODY_SIZE))
  }

  predicate IsPadding(c: Cell) {
    c[0] == VERSION && c[1] == KindByte(Padding)
  }

  /** One cell more at the end of a queue, if it has room. */
  function Enqueued(waiting: seq<Cell>, size: nat, cell: Cell): Option<seq<Cell>> {
    if |waiting| < size then Some(waiting + [cell]) else None
  }

  /** Cells waiting, the frames written so far, how many waiting cells were given up, and whether the clock still runs. */
  datatype Queue = Queue(waiting: seq<Cell>, written: seq<Cell>, lost: nat, running: bool)

  const EMPTY := Queue([], [], 0, true)

  function Pushed(q: Queue, size: nat, cell: Cell): Queue {
    match Enqueued(q.waiting, size, cell)
    case Some(more) => q.(waiting := more)
    case None => q
  }

  /** The frame a tick takes up: the oldest cell waiting, or padding. */
  function Frame(q: Queue): Cell {
    if q.waiting == [] then PaddingCell() else q.waiting[0]
  }

  function Left(q: Queue): seq<Cell> {
    if q.waiting == [] then [] else q.waiting[1..]
  }

  /** One tick; a frame the link does not take is gone, and stops the clock. */
  function Ticked(q: Queue, taken: bool): Queue {
    if !q.running then q
    else if taken then q.(waiting := Left(q), written := q.written + [Frame(q)])
    else q.(waiting := Left(q), running := false)
  }

  function Closed(q: Queue): Queue {
    q.(waiting := [], lost := q.lost + |q.waiting|, running := false)
  }

  class Pacer {
    const size: nat
    var queue: seq<Cell>
    var written: seq<Cell>
    var dropped: nat
    var running: bool

    function State(): Queue
      reads this
    {
      Queue(queue, written, dropped, running)
    }

    constructor (size: int)
      ensures this.size == QueueSize(size) && State() == EMPTY
    {
      this.size := QueueSize(size);
      queue, written, dropped, running := [], [], 0, true;
    }

    /** Queues a cell if there is room and says whether there was. */
    method Push(cell: Cell) returns (ok: bool)
      modifies this
      ensures ok == (|old(queue)| < size)
      ensures State() == Pushed(old(State()), size, cell)
    {
      if |queue| < size {
        queue := queue + [cell];
        return true;
      }
      return false;
    }

    /** One tick of the loop; taken says whether the link took the frame. */
    method Send(taken: bool)
      modifies this
      ensures State() == Ticked(old(State()), taken)
    {
      if !running {
        return;
      }
      var frame := PaddingCell();
      if queue != [] {
        frame := queue[0];
        queue := queue[1..];
      }
      if !taken {
        running := false;
        return;
      }
      written := written + [frame];
    }

    /** Ends the loop and counts what is still waiting as lost, one by one. */
    method Close()
      modifies this
      ensures State() == Closed(old(State()))
    {
      running := false;
      while queue != []
        invariant dropped + |queue| == old(dropped) + |old(queue)|
        invariant written == old(written) && !running
        decreases |queue|
      {
        queue := queue[1..];
        dropped := dropped + 1;
      }
    }
  }

  /** What the far end of a link passes on: every frame but the padding (link ReadCell). */
  function Unpadded(frames: seq<Cell>): (r: seq<Cell>) {
    if frames == [] then []
    else
      var init := Unpadded(frames[..|frames| - 1]);
      if IsPadding(frames[|frames| - 1]) then init else init + [frames[|frames| - 1]]
  }

  datatype Event = Push(cell: Cell) | Tick(taken: bool) | Close

  /** The queue, the cells it took, those lost in a write and in closing, and the ticks of a running clock, refused ones apart. */
  datatype Trace = Trace(queue: Queue, taken: seq<Cell>, torn: seq<Cell>, drained: seq<Cell>, ticks: nat, refused: nat)

  const IDLE := Trace(EMPTY, [], [], [], 0, 0)

  function OnQueue(size: nat, q: Queue, e: Event): Queue {
    match e
    case Push(cell) => Pushed(q, size, cell)
    case Tick(ok) => Ticked(q, ok)
    case Close => Closed(q)
  }

  function OnEvent(size: nat, t: Trace, e: Event): Trace {
    var q := t.queue;
    var t' := t.(queue := OnQueue(size, q, e));
    match e
    case Push(cell) => if |q.waiting| < size then t'.(taken := t.taken + [cell]) else t'
    case Tick(ok) =>
      if !q.running then t'
      else if ok then t'.(ticks := t.ticks + 1)
      else t'.(torn := t.torn + (if q.waiting == [] then [] else [q.waiting[0]]), ticks := t.ticks + 1, refused := t.refused + 1)
    case Close => t'.(drained := t.drained + q.waiting)
  }

  /** What these events make of a trace. */
  function Later(size: nat, t: Trace, events: seq<Event>): Trace {
    if events == [] then t else OnEvent(size, Later(size, t, events[..|events| - 1]), events[|events| - 1])
  }

  function After(size: nat, events: seq<Event>): Trace {
    Later(size, IDLE, events)
  }

  /** Everything the queue took is accounted for, in order: passed on, lost in one write, given up, or waiting. */
  ghost predicate Accounted(size: nat, t: Trace) {
    && |t.queue.written| + t.refused == t.ticks && t.refused <= 1 && |t.torn| <= t.refused
    && (t.queue.running ==> t.refused == 0 && t.drained == [])
    && |t.drained| == t.queue.lost && |t.queue.waiting| <= size
    && Unpadded(t.queue.written) + t.torn + t.drained + t.queue.waiting == t.taken
    && (forall cell :: cell in t.queue.waiting ==> !IsPadding(cell))
  }

  lemma PushAccounted(size: nat, t: Trace, cell: Cell)
    requires Accounted(size, t) && !IsPadding(cell)
    ensures Accounted(size, OnEvent(size, t, Push(cell)))
  {
    if |t.queue.waiting| < size {
      var front := Unpadded(t.queue.written) + t.torn + t.drained;
      assert front + (t.queue.waiting + [cell]) == (front + t.queue.waiting) + [cell];
    }
  }

  lemma TickAccounted(size: nat, t: Trace, ok: bool)
    requires Accounted(size, t)
    ensures Accounted(size, OnEvent(size, t, Tick(ok)))
  {
    var q := t.queue;
    if q.running {
      assert Unpadded(q.written) + q.waiting == t.taken;
      if q.waiting != [] {
        assert q.waiting == [q.waiting[0]] + q.waiting[1..];
        assert Unpadded(q.written) + q.waiting == (Unpadded(q.written) + [q.waiting[0]]) + q.waiting[1..];
      }
      if ok {
        var after: seq<Cell> := q.written + [Frame(q)];
        assert after[..|after| - 1] == q.written;
      }
    }
  }

  /**
   On every schedule of arrivals, ticks, failed writes and a close: one frame per
   tick while the clock runs, never more than size cells waiting, and what the far
   end passes on is, in order and without a gap, the beginning of what the queue
   took; the rest is the cell of the one write that failed, what closing gave up,
   and what still waits.
   */
  lemma {:induction false} PacedInOrder(size: nat, events: seq<Event>)
    requires forall e :: e in events && e.Push? ==> !IsPadding(e.cell)
    ensures Accounted(size, After(size, events))
    decreases |events|
  {
    if events != [] {
      var init := events[..|events| - 1];
      PacedInOrder(size, init);
      match events[|events| - 1]
      case Push(cell) => PushAccounted(size, After(size, init), cell);
      case Tick(ok) => TickAccounted(size, After(size, init), ok);
      case Close =>
    }
  }

  /** Ticks that the link takes, among these events. */
  function Ticks(events: seq<Event>): nat {
    if events == [] then 0
    else Ticks(events[..|events| - 1]) + if events[|events| - 1].Tick? then 1 else 0
  }

  /** A refused write costs the cell taken up and stops the clock, closing gives up what waits, and then no tick does anything. */
  lemma StopsExactly(size: nat, t: Trace, cell: Cell)
    ensures var q := OnEvent(size, t, Tick(false)).queue;
            && !q.running && q.written == t.queue.written && q.lost == t.queue.lost
            && q.waiting == if t.queue.running && t.queue.waiting != [] then t.queue.waiting[1..] else t.queue.waiting
    ensures var q := OnEvent(size, t, Close).queue;
            !q.running && q.waiting == [] && q.written == t.queue.written && q.lost == t.queue.lost + |t.queue.waiting|
    ensures !t.queue.running ==> forall ok :: OnEvent(size, t, Tick(ok)) == t
    ensures var q := OnEvent(size, t, Push(cell)).queue;
            q == t.queue.(waiting := if |t.queue.waiting| < size then t.queue.waiting + [cell] else t.queue.waiting)
  {}

  /** What n ticks make of a queue: one frame each, its own cells first, and those behind them still in line. */
  ghost predicate Served(q: Queue, q': Queue, n: nat) {
    && q'.running && q'.lost == q.lost
    && |q'.written| == |q.written| + n && q'.written[..|q.written|] == q.written
    && (n <= |q.waiting| ==>
          && q'.written[|q.written|..] == q.waiting[..n]
          && |q'.waiting| >= |q.waiting| - n && q'.waiting[..|q.waiting| - n] == q.waiting[n..])
  }

  lemma PushServes(q: Queue, m: Queue, n: nat, size: nat, cell: Cell)
    requires Served(q, m, n)
    ensures Served(q, Pushed(m, size, cell), n)
  {}

  lemma TickServes(q: Queue, m: Queue, n: nat)
    requires Served(q, m, n)
    ensures Served(q, Ticked(m, true), n + 1)
  {
    var q' := Ticked(m, true);
    assert q'.written[..|q.written|] == m.written[..|q.written|];
    if n < |q.waiting| {
      assert m.waiting[0] == m.waiting[..|q.waiting| - n][0] == q.waiting[n];
      assert q'.written[|q.written|..] == m.written[|q.written|..] + [q.waiting[n]];
      forall i | 0 <= i < |q.waiting| - n - 1 ensures q'.waiting[i] == q.waiting[n + 1 + i] {
        assert q'.waiting[i] == m.waiting[i + 1] == m.waiting[..|q.waiting| - n][i + 1];
      }
    }
  }

  /**
   While the link takes what it is given, a cell that waits behind n others leaves
   with the tick after theirs, whatever is queued meanwhile.
   */
  lemma {:induction false} WaitsItsTurn(size: nat, t: Trace, events: seq<Event>)
    requires t.queue.running && forall e :: e in events ==> e.Push? || e == Tick(true)
    ensures Served(t.queue, Later(size, t, events).queue, Ticks(events))
    decreases |events|
  {
    if events != [] {
      var init, e := events[..|events| - 1], events[|events| - 1];
      var m := Later(size, t, init);
      WaitsItsTurn(size, t, init);
      assert e in events;
      if e.Tick? {
        TickServes(t.queue, m.queue, Ticks(init));
      } else {
        PushServes(t.queue, m.queue, Ticks(init), size, e.cell);
      }
    }
  }
}
