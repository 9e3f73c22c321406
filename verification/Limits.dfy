/** Token buckets (relay/limits.go), on exact numbers: seconds and tokens are reals. */
module Buckets {

  datatype Bucket = Bucket(rate: real, burst: real, tokens: real, last: real)

  function NewBucket(rate: real, burst: real, now: real): Bucket {
    Bucket(rate, burst, burst, now)
  }

  function Min(x: real, y: real): real {
    if x <= y then x else y
  }

  /** What a bucket holds at a later moment. */
  function Level(b: Bucket, now: real): real {
    Min(b.burst, b.tokens + (now - b.last) * b.rate)
  }

  function Refill(b: Bucket, now: real): Bucket {
    b.(tokens := Level(b, now), last := now)
  }

  function Take(b: Bucket, now: real): (r: (Bucket, bool)) {
    if b.rate <= 0.0 then (b, true)
    else
      var f := Refill(b, now);
      if f.tokens < 1.0 then (f, false) else (f.(tokens := f.tokens - 1.0), true)
  }

  /** full: it refills as it looks. */
  function LookFull(b: Bucket, now: real): (r: (Bucket, bool)) {
    if b.rate <= 0.0 then (b, true)
    else
      var f := Refill(b, now);
      (f, f.tokens >= f.burst)
  }

  /** refilledIn leaves the bucket refilled as well. */
  function Looked(b: Bucket, now: real): Bucket {
    if b.rate <= 0.0 then b else Refill(b, now)
  }

  /** Buckets as they occur: between empty and full, last refilled in the past. */
  predicate Proper(b: Bucket, now: real) {
    b.rate > 0.0 ==> 0.0 <= b.tokens <= b.burst && b.last <= now
  }

  lemma GainNonNegative(d: real, rate: real)
    requires d >= 0.0 && rate >= 0.0
    ensures d * rate >= 0.0
  {}

  lemma GainAdds(a: real, b: real, c: real, rate: real)
    ensures (b - a) * rate + (c - b) * rate == (c - a) * rate
  {}

  /** Refilling in between changes nothing later. */
  lemma RefillIsQuiet(b: Bucket, now: real, later: real)
    requires Proper(b, now) && b.rate > 0.0 && now <= later
    ensures Level(Refill(b, now), later) == Level(b, later)
    ensures Proper(Refill(b, now), now) && Level(Refill(b, now), now) == Level(b, now)
    ensures 0.0 <= Level(b, now) <= b.burst
  {
    GainNonNegative(now - b.last, b.rate);
    GainNonNegative(later - now, b.rate);
    GainAdds(b.last, now, later, b.rate);
  }

  /** Two buckets that stand level now make the same decisions ever after. */
  ghost predicate SameLevel(a: Bucket, b: Bucket, now: real) {
    && a.rate == b.rate && a.burst == b.burst
    && Proper(a, now) && Proper(b, now)
    && (a.rate > 0.0 ==> Level(a, now) == Level(b, now))
  }

  lemma StaysLevel(a: Bucket, b: Bucket, now: real, later: real)
    requires SameLevel(a, b, now) && now <= later
    ensures SameLevel(a, b, later)
  {
    if a.rate > 0.0 {
      RefillIsQuiet(a, now, later);
      RefillIsQuiet(b, now, later);
    }
  }

  lemma TakesAlike(a: Bucket, b: Bucket, now: real)
    requires SameLevel(a, b, now)
    ensures Take(a, now).1 == Take(b, now).1
    ensures SameLevel(Take(a, now).0, Take(b, now).0, now)
  {
    if a.rate > 0.0 {
      RefillIsQuiet(a, now, now);
      RefillIsQuiet(b, now, now);
    }
  }

  lemma LooksAlike(a: Bucket, b: Bucket, now: real)
    requires SameLevel(a, b, now)
    ensures LookFull(a, now).1 == LookFull(b, now).1
    ensures SameLevel(LookFull(a, now).0, b, now) && SameLevel(a, LookFull(b, now).0, now)
    ensures SameLevel(Looked(a, now), b, now) && SameLevel(a, Looked(b, now), now)
  {
    if a.rate > 0.0 {
      RefillIsQuiet(a, now, now);
      RefillIsQuiet(b, now, now);
    }
  }

  lemma LevelWithItself(b: Bucket, now: real)
    requires Proper(b, now)
    ensures SameLevel(b, b, now)
  {}

  /** A full bucket stands level with a new one. */
  lemma FullIsNew(b: Bucket, now: real)
    requires Proper(b, now) && b.burst >= 0.0 && LookFull(b, now).1
    ensures SameLevel(b, NewBucket(b.rate, b.burst, now), now)
  {
    if b.rate > 0.0 {
      RefillIsQuiet(b, now, now);
    }
  }
}

/** Who may connect and how often (relay/limits.go). */
module Limits {
  import opened Results
  import opened Buckets

  type Addr = nat

  /** The effective values; zero turns a limit off, and sourceCap bounds the table. */
  datatype Caps = Caps(
    links: nat, handshakes: nat, perSource: nat, sourceHandshakes: nat,
    linkRate: real, setupRate: real, linkBurst: real, setupBurst: real, sourceCap: nat)

  predicate PerSourceOn(c: Caps) {
    c.perSource > 0 || c.sourceHandshakes > 0 || c.linkRate > 0.0 || c.setupRate > 0.0
  }

  datatype Source = Source(id: nat, open: int, handshaking: int, links: Bucket, setups: Bucket, forgetting: bool)

  datatype Verdict = Admitted | RefusedTable | RefusedRate | RefusedSource | RefusedLinks | RefusedBusy

  /** The table, the two shared counts and the forget timers that are running. */
  datatype Table = Table(inbound: int, handshaking: int, sources: map<Addr, Source>, timers: set<(Addr, nat)>, nextId: nat)

  const EMPTY := Table(0, 0, map[], {}, 0)

  function Without(m: map<Addr, Source>, a: Addr): map<Addr, Source> {
    m - {a}
  }

  function Put(t: Table, src: Addr, s: Source): Table {
    t.(sources := t.sources[src := s])
  }

  /** settle: a source without links is dropped once both buckets are full, and gets a timer before that. */
  function Settle(t: Table, src: Addr, now: real): Table
    requires src in t.sources
  {
    var s := t.sources[src];
    if s.open > 0 || s.forgetting then t
    else
      var (l, lf) := LookFull(s.links, now);
      var (p, pf) := if lf then LookFull(s.setups, now) else (s.setups, false);
      if lf && pf then t.(sources := Without(t.sources, src))
      else
        Put(t, src, s.(links := Looked(l, now), setups := Looked(p, now), forgetting := true))
        .(timers := t.timers + {(src, s.id)})
  }

  /** The entry admit works on, made when there is none. */
  function Entry(c: Caps, t: Table, src: Addr, now: real): Table {
    if src in t.sources then t
    else Put(t, src, Source(t.nextId, 0, 0, NewBucket(c.linkRate, c.linkBurst, now), NewBucket(c.setupRate, c.setupBurst, now), false))
         .(nextId := t.nextId + 1)
  }

  datatype Counts = Counts(open: int, handshaking: int)

  /** The caps, in the order they are checked once the rate has passed. */
  function Capped(c: Caps, all: Counts, own: Option<Counts>): Verdict {
    if own.Some? && ((c.perSource > 0 && own.value.open >= c.perSource)
                     || (c.sourceHandshakes > 0 && own.value.handshaking >= c.sourceHandshakes)) then RefusedSource
    else if c.links > 0 && all.open >= c.links then RefusedLinks
    else if c.handshakes > 0 && all.handshaking >= c.handshakes then RefusedBusy
    else Admitted
  }

  function Admit(c: Caps, t: Table, src: Addr, now: real): (r: (Table, Verdict)) {
    if !PerSourceOn(c) then
      var v := Capped(c, Counts(t.inbound, t.handshaking), None);
      if v.Admitted? then (t.(inbound := t.inbound + 1, handshaking := t.handshaking + 1), v) else (t, v)
    else if src !in t.sources && |t.sources| >= c.sourceCap then (t, RefusedTable)
    else
      var e := Entry(c, t, src, now);
      var (links, passed) := Take(e.sources[src].links, now);
      var e' := Put(e, src, e.sources[src].(links := links));
      if !passed then (Settle(e', src, now), RefusedRate)
      else
        var s := e'.sources[src];
        var v := Capped(c, Counts(t.inbound, t.handshaking), Some(Counts(s.open, s.handshaking)));
        if v.Admitted? then
          (Put(e', src, s.(open := s.open + 1, handshaking := s.handshaking + 1))
           .(inbound := t.inbound + 1, handshaking := t.handshaking + 1), v)
        else (Settle(e', src, now), v)
  }

  /** A bucket with a token to spend, or of a rate that is turned off. */
  predicate HasToken(b: Bucket, now: real) {
    b.rate <= 0.0 || (b.burst >= 1.0 && b.tokens + (now - b.last) * b.rate >= 1.0)
  }

  /** A source's own limit leaves it one more. */
  predicate Below(n: int, limit: nat) {
    limit == 0 || n < limit
  }

  /**
   Which of the six verdicts a connection gets, each by a condition of its own: first
   the table's room for a new source, then its rate, its own caps, and only for a
   source within all of these the shared caps. A source beyond its own allowance
   never counts against the rest.
   */
  lemma VerdictExactly(c: Caps, t: Table, src: Addr, now: real)
    ensures var v, on, known := Admit(c, t, src, now).1, PerSourceOn(c), src in t.sources;
            var room := known || |t.sources| < c.sourceCap;
            var paid := if known then HasToken(t.sources[src].links, now) else c.linkRate <= 0.0 || c.linkBurst >= 1.0;
            var own := if known then Below(t.sources[src].open, c.perSource) && Below(t.sources[src].handshaking, c.sourceHandshakes) else true;
            && (v.RefusedTable? <==> on && !room)
            && (v.RefusedRate? <==> on && room && !paid)
            && (v.RefusedSource? <==> on && room && paid && !own)
            && (v.RefusedLinks? <==> (on ==> room && paid && own) && !Below(t.inbound, c.links))
            && (v.RefusedBusy? <==> (on ==> room && paid && own) && Below(t.inbound, c.links) && !Below(t.handshaking, c.handshakes))
            && (v.Admitted? <==> (on ==> room && paid && own) && Below(t.inbound, c.links) && Below(t.handshaking, c.handshakes))
  {
    assert c.linkBurst + (now - now) * c.linkRate == c.linkBurst;
  }

  function HandshakeDone(t: Table, src: Addr): Table {
    var t' := t.(handshaking := t.handshaking - 1);
    if src in t.sources then Put(t', src, t.sources[src].(handshaking := t.sources[src].handshaking - 1)) else t'
  }

  function Leave(t: Table, src: Addr, now: real): Table {
    var t' := t.(inbound := t.inbound - 1);
    if src in t.sources then Settle(Put(t', src, t.sources[src].(open := t.sources[src].open - 1)), src, now) else t'
  }

  /** A timer set for one entry: it settles that entry if the table still holds it. */
  function Fire(t: Table, src: Addr, id: nat, now: real): Table {
    var t' := t.(timers := t.timers - {(src, id)});
    if src in t.sources && t.sources[src].id == id
    then Settle(Put(t', src, t.sources[src].(forgetting := false)), src, now) else t'
  }

  function AllowSetup(c: Caps, t: Table, src: Addr, now: real): (r: (Table, bool)) {
    if c.setupRate <= 0.0 || src !in t.sources then (t, true)
    else
      var (setups, ok) := Take(t.sources[src].setups, now);
      (Put(t, src, t.sources[src].(setups := setups)), ok)
  }

  /** The relay's share of this state, changed in place. */
  class Limiter {
    const caps: Caps
    var inbound: int
    var handshaking: int
    var sources: map<Addr, Source>
    var timers: set<(Addr, nat)>
    var nextId: nat

    function Value(): Table
      reads this
    {
      Table(inbound, handshaking, sources, timers, nextId)
    }

    constructor (caps: Caps)
      ensures this.caps == caps && Value() == EMPTY
    {
      this.caps := caps;
      inbound, handshaking, sources, timers, nextId := 0, 0, map[], {}, 0;
    }

    method SettleSource(src: Addr, now: real)
      requires src in sources
      modifies this
      ensures Value() == Settle(old(Value()), src, now)
    {
      var s := sources[src];
      if s.open > 0 || s.forgetting {
        return;
      }
      var l, lf := LookFull(s.links, now).0, LookFull(s.links, now).1;
      var p, pf := s.setups, false;
      if lf {
        p, pf := LookFull(s.setups, now).0, LookFull(s.setups, now).1;
      }
      if lf && pf {
        sources := sources - {src};
        return;
      }
      sources := sources[src := s.(links := Looked(l, now), setups := Looked(p, now), forgetting := true)];
      timers := timers + {(src, s.id)};
    }

    method AdmitLink(src: Addr, now: real) returns (v: Verdict)
      modifies this
      ensures (Value(), v) == Admit(caps, old(Value()), src, now)
    {
      var entry: Option<Source> := None;
      if PerSourceOn(caps) {
        if src !in sources {
          if |sources| >= caps.sourceCap {
            return RefusedTable;
          }
          sources := sources[src := Source(nextId, 0, 0, NewBucket(caps.linkRate, caps.linkBurst, now),
                                           NewBucket(caps.setupRate, caps.setupBurst, now), false)];
          nextId := nextId + 1;
        }
        assert Value() == Entry(caps, old(Value()), src, now);
        var links, passed := Take(sources[src].links, now).0, Take(sources[src].links, now).1;
        sources := sources[src := sources[src].(links := links)];
        if !passed {
          SettleSource(src, now);
          return RefusedRate;
        }
        entry := Some(sources[src]);
      }
      v := Capped(caps, Counts(inbound, handshaking), if entry.Some? then Some(Counts(entry.value.open, entry.value.handshaking)) else None);
      if !v.Admitted? {
        if entry.Some? {
          SettleSource(src, now);
        }
        return;
      }
      if entry.Some? {
        sources := sources[src := entry.value.(open := entry.value.open + 1, handshaking := entry.value.handshaking + 1)];
      }
      inbound, handshaking := inbound + 1, handshaking + 1;
    }

    method LeaveLink(src: Addr, now: real)
      modifies this
      ensures Value() == Leave(old(Value()), src, now)
    {
      inbound := inbound - 1;
      if src in sources {
        sources := sources[src := sources[src].(open := sources[src].open - 1)];
        SettleSource(src, now);
      }
    }

    method TimerFired(src: Addr, id: nat, now: real)
      modifies this
      ensures Value() == Fire(old(Value()), src, id, now)
    {
      timers := timers - {(src, id)};
      if src in sources && sources[src].id == id {
        sources := sources[src := sources[src].(forgetting := false)];
        SettleSource(src, now);
      }
    }

    method SetupAllowed(src: Addr, now: real) returns (ok: bool)
      modifies this
      ensures (Value(), ok) == AllowSetup(caps, old(Value()), src, now)
    {
      if caps.setupRate <= 0.0 || src !in sources {
        return true;
      }
      var setups := Take(sources[src].setups, now).0;
      ok := Take(sources[src].setups, now).1;
      sources := sources[src := sources[src].(setups := setups)];
    }
  }
}
