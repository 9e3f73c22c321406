/** Validity windows of certificates and descriptors (pki/verify.go, pki/identity.go). */
module Windows {
  import opened Results
  import opened ByteStrings

  /** Times and durations in nanoseconds; unix seconds as the formats carry them. */
  const SECOND: int := 1_000_000_000
  const MINUTE: int := 60 * SECOND
  const HOUR: int := 60 * MINUTE
  const SKEW: int := 2 * MINUTE
  const MAX_DESCRIPTOR_LIFE: int := 24 * HOUR

  function Unix(t: int): int {
    t / SECOND
  }

  datatype Cert = Cert(notBefore: int, notAfter: int)

  datatype Descriptor = Descriptor(onion: Bytes, epoch: nat, published: int, expires: int)

  predicate CertWindow(c: Cert, now: int, skew: int) {
    c.notAfter > c.notBefore && Unix(now + skew) >= c.notBefore && Unix(now) < c.notAfter
  }

  predicate DescWindow(d: Descriptor, c: Cert, now: int, skew: int, maxLife: int) {
    && d.expires > d.published && d.expires <= c.notAfter
    && d.expires - d.published <= maxLife / SECOND
    && Unix(now + skew) >= d.published && Unix(now) < d.expires
  }

  function MaxLife(life: int): int {
    if life <= 0 || life > MAX_DESCRIPTOR_LIFE then MAX_DESCRIPTOR_LIFE else life
  }

  /** The time checks of Verify, for a policy with this skew and longest life. */
  predicate Accepts(d: Descriptor, c: Cert, now: int, skew: int, life: int) {
    var s := if skew < 0 then 0 else skew;
    CertWindow(c, now, s) && DescWindow(d, c, now, s, MaxLife(life))
  }

  /** Refresh: the descriptor never outlives the certificate, and none is made once that has expired. */
  function Refreshed(c: Option<Cert>, onion: Bytes, epoch: nat, now: int, ttl: int): (r: Option<Descriptor>)
    ensures r.Some? ==> r.value.onion == onion && r.value.epoch == epoch
    ensures r.Some? ==> Unix(now) == r.value.published < r.value.expires <= Unix(now + ttl)
  {
    if ttl <= 0 || ttl > MAX_DESCRIPTOR_LIFE || c.None? then None
    else
      var published := Unix(now);
      if published >= c.value.notAfter then None
      else
        var end := Unix(now + ttl);
        var expires := if end < c.value.notAfter then end else c.value.notAfter;
        if expires <= published then None else Some(Descriptor(onion, epoch, published, expires))
  }

  /**
   When a descriptor comes about and what it says: it ends a lifetime after the
   signing, or with the certificate if that is sooner, in whole seconds.
   */
  lemma RefreshedExactly(c: Option<Cert>, onion: Bytes, epoch: nat, now: int, ttl: int)
    ensures Refreshed(c, onion, epoch, now, ttl).Some? <==>
              && 0 < ttl <= 24 * 3600 * 1_000_000_000 && c.Some?
              && (now + ttl) / 1_000_000_000 > now / 1_000_000_000 && c.value.notAfter > now / 1_000_000_000
    ensures Refreshed(c, onion, epoch, now, ttl).Some? ==>
              var d := Refreshed(c, onion, epoch, now, ttl).value;
              && d.onion == onion && d.epoch == epoch && d.published == now / 1_000_000_000
              && (d.expires == (now + ttl) / 1_000_000_000 || d.expires == c.value.notAfter)
              && d.expires <= (now + ttl) / 1_000_000_000 && d.expires <= c.value.notAfter
  {}

  /**
   Of any descriptor and certificate, whoever made them: accepted never, or at just
   the instants of one interval. It opens the allowance before the later of the two
   beginnings and closes with the descriptor.
   */
  lemma AcceptsInterval(d: Descriptor, c: Cert, now: int, skew: int, life: int)
    ensures var s, longest := if skew > 0 then skew else 0, if 0 < life < 24 * HOUR then life else 24 * HOUR;
            var from := if c.notBefore > d.published then c.notBefore else d.published;
            Accepts(d, c, now, skew, life) <==>
              && d.published < d.expires <= c.notAfter && c.notBefore < c.notAfter && d.expires <= d.published + longest / SECOND
              && from * SECOND - s <= now < d.expires * SECOND
  {
    UnixReaches(now + (if skew > 0 then skew else 0), c.notBefore);
    UnixReaches(now + (if skew > 0 then skew else 0), d.published);
    UnixReaches(now, d.expires);
    UnixReaches(now, c.notAfter);
  }

  /** The clock shows a second from its first instant on. */
  lemma UnixReaches(t: int, second: int)
    ensures Unix(t) >= second <==> t >= second * SECOND
  {
    assert t == Unix(t) * SECOND + t % SECOND;
  }

  /** A verifier's clock, ahead or behind, against the moment of signing, the lifetime and the certificate. */
  lemma AcceptedExactly(c: Cert, onion: Bytes, epoch: nat, signed: int, ttl: int, now: int, skew: int, life: int)
    requires Refreshed(Some(c), onion, epoch, signed, ttl).Some?
    ensures var d := Refreshed(Some(c), onion, epoch, signed, ttl).value;
            var s, longest := if skew > 0 then skew else 0, if 0 < life < 24 * HOUR then life else 24 * HOUR;
            Accepts(d, c, now, skew, life) <==>
              && c.notBefore < c.notAfter && c.notBefore <= Unix(now + s) && Unix(signed) <= Unix(now + s)
              && Unix(now) < Unix(signed + ttl) && Unix(now) < c.notAfter
              && (Unix(signed + ttl) - Unix(signed) <= longest / SECOND || c.notAfter - Unix(signed) <= longest / SECOND)
  {}

  /** From signing on, a verifier with the node's certificate and the longest allowed lifetime accepts until either ends. */
  lemma RefreshedAccepted(c: Cert, onion: Bytes, epoch: nat, signed: int, ttl: int, now: int, skew: int)
    requires Refreshed(Some(c), onion, epoch, signed, ttl).Some? && c.notBefore <= Unix(signed)
    requires signed <= now && skew >= 0
    ensures var d := Refreshed(Some(c), onion, epoch, signed, ttl).value;
            Accepts(d, c, now, skew, 0) <==> Unix(now) < Unix(signed + ttl) && Unix(now) < c.notAfter
  {
    assert Unix(now + skew) >= Unix(now) >= Unix(signed);
    SecondsApart(signed, ttl);
    AcceptedExactly(c, onion, epoch, signed, ttl, now, skew, 0);
  }

  lemma SecondsApart(t: int, d: int)
    requires 0 <= d <= MAX_DESCRIPTOR_LIFE
    ensures Unix(t + d) - Unix(t) <= MAX_DESCRIPTOR_LIFE / SECOND
  {
    assert t + d < SECOND * Unix(t) + SECOND + MAX_DESCRIPTOR_LIFE;
    assert MAX_DESCRIPTOR_LIFE == SECOND * (MAX_DESCRIPTOR_LIFE / SECOND);
  }
}

/** When a node replaces its onion key and when it lets the old one go (cmd/relay/onion.go, cmd/relay/admin.go). */
module Rotation {
  import opened Results
  import opened ByteStrings
  import opened Ciphers
  import opened Windows
  import Replay
  import Ring

  /** One reading of the clock: the wall and the running time of the host. */
  datatype Instant = Instant(wall: int, run: int)

  /** A moment that has come once either reading says so. */
  datatype Deadline = Deadline(wall: int, run: int)

  function DueAfter(now: Instant, d: int): Deadline {
    Deadline(now.wall + d, now.run + d)
  }

  predicate Passed(d: Deadline, now: Instant) {
    now.wall >= d.wall || now.run >= d.run
  }

  /** A key pair the node made, or None for one it could not make or lock. */
  datatype Made = Made(handle: Ring.Handle, priv: Key, pub: Bytes, pair: bool)

  /** What the node holds; retireAt is None while no release is pending. */
  datatype Node = Node(
    ring: Ring.State, rotateAt: Deadline, retireAt: Option<Deadline>, failures: nat,
    cert: Option<Cert>, signed: seq<Descriptor>
  )

  datatype Terms = Terms(pubSize: nat, every: int, ttl: int)

  function Grace(t: Terms): int {
    t.ttl + SKEW
  }

  /** sign: the descriptor names the ring's current key of the moment. */
  function Signed(t: Terms, n: Node, now: Instant): Node {
    if n.ring.current.None? then n
    else match Refreshed(n.cert, n.ring.current.value.pub, n.ring.current.value.epoch, now.wall, t.ttl)
      case None => n
      case Some(d) => n.(signed := n.signed + [d])
  }

  /** The node with a pending release carried out, if its moment has come. */
  function Released(n: Node, now: Instant): Node {
    if n.retireAt.Some? && Passed(n.retireAt.value, now) then n.(ring := Ring.Retired(n.ring), retireAt := None) else n
  }

  /** rotateIfDue */
  function Due(t: Terms, n: Node, now: Instant, made: Option<Made>): Node {
    if n.ring.closed then n
    else
      var m := Released(n, now);
      if !Passed(m.rotateAt, now) || m.retireAt.Some? then m
      else if made.None? then m.(failures := m.failures + 1)
      else
        var k := made.value;
        var (ring, r) := Ring.Rotated(m.ring, t.pubSize, k.handle, Some(k.priv), k.pub, k.pair);
        if r.Err? then m.(failures := m.failures + 1)
        else
          Signed(t, m.(ring := ring, rotateAt := DueAfter(now, t.every), retireAt := Some(DueAfter(now, Grace(t)))), now)
  }

  class OnionNode {
    const ring: Ring.OnionRing
    const terms: Terms
    var rotateAt: Deadline
    var retireAt: Option<Deadline>
    var failures: nat
    var cert: Option<Cert>
    var signed: seq<Descriptor>

    ghost predicate Valid()
      reads this, ring
    {
      terms.pubSize == ring.pubSize && (ring.closed <==> ring.current.None?)
    }

    function Value(): Node
      reads this, ring
    {
      Node(ring.Value(), rotateAt, retireAt, failures, cert, signed)
    }

    constructor (ring: Ring.OnionRing, terms: Terms, now: Instant)
      requires terms.pubSize == ring.pubSize && (ring.closed <==> ring.current.None?)
      ensures Valid() && this.ring == ring && this.terms == terms
      ensures Value() == Node(ring.Value(), DueAfter(now, terms.every), None, 0, None, [])
    {
      this.ring, this.terms := ring, terms;
      rotateAt, retireAt, failures := DueAfter(now, terms.every), None, 0;
      cert, signed := None, [];
    }

    method Sign(now: Instant)
      requires Valid()
      modifies this
      ensures Valid() && Value() == Signed(terms, old(Value()), now)
    {
      if ring.current.Some? {
        var d := Refreshed(cert, ring.current.value.pub, ring.current.value.epoch, now.wall, terms.ttl);
        if d.Some? {
          signed := signed + [d.value];
        }
      }
    }

    method RotateIfDue(now: Instant, made: Option<Made>)
      requires Valid()
      modifies this, ring
      ensures Valid() && Value() == Due(terms, old(Value()), now, made)
    {
      if ring.closed {
        return;
      }
      if retireAt.Some? && Passed(retireAt.value, now) {
        ring.Retire();
        retireAt := None;
      }
      assert Value() == Released(old(Value()), now);
      if !Passed(rotateAt, now) || retireAt.Some? {
        return;
      }
      if made.None? {
        failures := failures + 1;
        return;
      }
      var k := made.value;
      var epoch := ring.Rotate(k.handle, Some(k.priv), k.pub, k.pair);
      if epoch.Err? {
        failures := failures + 1;
        return;
      }
      rotateAt := DueAfter(now, terms.every);
      retireAt := Some(DueAfter(now, Grace(terms)));
      Sign(now);
    }
  }

  // -------------------------------------------------------------- whole runs

  datatype Event =
    | Tick(made: Option<Made>)
    | Resign
    | Install(c: Cert)
    // a setup opened under the current key or the one before, and its tag was burned there
    | Burned(current: bool, tag: Replay.SetupTag)

  /** A node's past: its state, when each descriptor was signed, when the ring last rotated, and the last reading. */
  datatype Past = Past(n: Node, signedAt: seq<int>, rotatedAt: seq<int>, last: int)

  function Start(ring: Ring.State, t: Terms, now: Instant): Past {
    Past(Node(ring, DueAfter(now, t.every), None, 0, None, []), [], [now.run], now.run)
  }

  function Next(t: Terms, n: Node, now: Instant, e: Event): Node {
    match e
    case Tick(made) => Due(t, n, now, made)
    case Resign => Signed(t, n, now)
    case Install(c) => Signed(t, n.(cert := Some(c)), now)
    case Burned(current, tag) => n.(ring := Ring.Tagged(n.ring, current, tag))
  }

  function Step(t: Terms, h: Past, now: Instant, e: Event): Past {
    var n := Next(t, h.n, now, e);
    Past(n,
         if |n.signed| > |h.n.signed| then h.signedAt + [now.run] else h.signedAt,
         if n.ring.current != h.n.ring.current && e.Tick? then h.rotatedAt + [now.run] else h.rotatedAt,
         now.run)
  }

  /** One clock: wall and running time a fixed distance apart, and never going back. */
  predicate OneClock(h: Past, now: Instant, distance: int) {
    now.wall == now.run + distance && now.run >= h.last
  }

  predicate HoldsKey(s: Ring.State, pub: Bytes) {
    || (s.current.Some? && s.current.value.pub == pub)
    || (s.previous.Some? && s.previous.value.pub == pub)
  }

  /** A release is pending exactly while a replaced key is held, for a grace after it was replaced. */
  ghost predicate Scheduled(t: Terms, h: Past, distance: int) {
    && h.n.ring.current.Some? && !h.n.ring.closed
    && (h.n.retireAt.Some? <==> h.n.ring.previous.Some?)
    && |h.rotatedAt| >= 1 && h.rotatedAt[|h.rotatedAt| - 1] <= h.last
    && var last := h.rotatedAt[|h.rotatedAt| - 1];
       && h.n.rotateAt == Deadline(last + distance + t.every, last + t.every)
       && (h.n.retireAt.Some? ==> h.n.retireAt.value == Deadline(last + distance + Grace(t), last + Grace(t)))
       && (h.n.retireAt.None? && |h.rotatedAt| >= 2 ==> h.last >= last + Grace(t))
  }

  /** A signed descriptor's key is current, or held until its grace is over, or its grace is over. */
  ghost predicate Covered(t: Terms, h: Past, distance: int) {
    && |h.signedAt| == |h.n.signed|
    && forall i :: 0 <= i < |h.n.signed| ==> CoveredOne(t, h, h.n.signed[i], h.signedAt[i], distance)
  }

  ghost predicate CoveredOne(t: Terms, h: Past, d: Descriptor, at: int, distance: int) {
    && at <= h.last && d.expires <= Unix(at + distance + t.ttl)
    && (|| h.last >= at + Grace(t)
        || (h.n.ring.current.Some? && h.n.ring.current.value.pub == d.onion)
        || (h.n.ring.previous.Some? && h.n.ring.previous.value.pub == d.onion
            && |h.rotatedAt| >= 1 && at <= h.rotatedAt[|h.rotatedAt| - 1]))
  }

  /** Rotations keep the longer of the period and the grace apart, the first from the start. */
  ghost predicate Spaced(t: Terms, h: Past) {
    forall i :: 1 <= i < |h.rotatedAt| ==>
      h.rotatedAt[i] >= h.rotatedAt[i - 1] + t.every && (i > 1 ==> h.rotatedAt[i] >= h.rotatedAt[i - 1] + Grace(t))
  }

  ghost predicate Kept(t: Terms, h: Past, distance: int) {
    Scheduled(t, h, distance) && Covered(t, h, distance) && Spaced(t, h)
  }

  lemma SignKeeps(t: Terms, h: Past, now: Instant, distance: int, cert: Option<Cert>)
    requires Kept(t, h, distance) && OneClock(h, now, distance)
    ensures var n := Signed(t, h.n.(cert := cert), now);
            Kept(t, Past(n, if |n.signed| > |h.n.signed| then h.signedAt + [now.run] else h.signedAt, h.rotatedAt, now.run), distance)
  {
    var n := Signed(t, h.n.(cert := cert), now);
    var h' := Past(n, if |n.signed| > |h.n.signed| then h.signedAt + [now.run] else h.signedAt, h.rotatedAt, now.run);
    forall i | 0 <= i < |n.signed| ensures CoveredOne(t, h', n.signed[i], h'.signedAt[i], distance) {
      if i < |h.n.signed| {
        assert CoveredOne(t, h, h.n.signed[i], h.signedAt[i], distance);
      }
    }
  }

  /** Releasing at or past the deadline leaves no accepted descriptor without its key. */
  lemma ReleaseKeeps(t: Terms, h: Past, now: Instant, distance: int)
    requires Kept(t, h, distance) && OneClock(h, now, distance)
    ensures Kept(t, Past(Released(h.n, now), h.signedAt, h.rotatedAt, now.run), distance)
  {
    var n := Released(h.n, now);
    var h' := Past(n, h.signedAt, h.rotatedAt, now.run);
    forall i | 0 <= i < |n.signed| ensures CoveredOne(t, h', n.signed[i], h'.signedAt[i], distance) {
      assert CoveredOne(t, h, h.n.signed[i], h.signedAt[i], distance);
    }
  }

  lemma RotationKeeps(t: Terms, h: Past, now: Instant, k: Made, distance: int)
    requires Kept(t, h, distance) && OneClock(h, now, distance)
    requires Passed(h.n.rotateAt, now) && h.n.retireAt.None?
    requires Ring.Rotated(h.n.ring, t.pubSize, k.handle, Some(k.priv), k.pub, k.pair).1.Ok?
    ensures var ring := Ring.Rotated(h.n.ring, t.pubSize, k.handle, Some(k.priv), k.pub, k.pair).0;
            && ring.released == h.n.ring.released && ring.previous == h.n.ring.current
            && Kept(t, Past(h.n.(ring := ring, rotateAt := DueAfter(now, t.every), retireAt := Some(DueAfter(now, Grace(t)))),
                            h.signedAt, h.rotatedAt + [now.run], now.run), distance)
  {
    var ring := Ring.Rotated(h.n.ring, t.pubSize, k.handle, Some(k.priv), k.pub, k.pair).0;
    var n := h.n.(ring := ring, rotateAt := DueAfter(now, t.every), retireAt := Some(DueAfter(now, Grace(t))));
    var h' := Past(n, h.signedAt, h.rotatedAt + [now.run], now.run);
    forall i | 0 <= i < |n.signed| ensures CoveredOne(t, h', n.signed[i], h'.signedAt[i], distance) {
      assert CoveredOne(t, h, h.n.signed[i], h.signedAt[i], distance);
    }
  }

  /** A tick that rotates: the release, the rotation and the signing of the new key, one after the other. */
  lemma TurnKeeps(t: Terms, h: Past, now: Instant, k: Made, distance: int)
    requires Kept(t, h, distance) && OneClock(h, now, distance)
    requires Passed(h.n.rotateAt, now) && h.n.retireAt.None?
    requires Ring.Rotated(h.n.ring, t.pubSize, k.handle, Some(k.priv), k.pub, k.pair).1.Ok?
    ensures var ring := Ring.Rotated(h.n.ring, t.pubSize, k.handle, Some(k.priv), k.pub, k.pair).0;
            var n := Signed(t, h.n.(ring := ring, rotateAt := DueAfter(now, t.every), retireAt := Some(DueAfter(now, Grace(t)))), now);
            && n.ring == ring && ring.released == h.n.ring.released && ring.current != h.n.ring.current
            && Kept(t, Past(n, if |n.signed| > |h.n.signed| then h.signedAt + [now.run] else h.signedAt,
                            h.rotatedAt + [now.run], now.run), distance)
  {
    var ring := Ring.Rotated(h.n.ring, t.pubSize, k.handle, Some(k.priv), k.pub, k.pair).0;
    var turned := h.n.(ring := ring, rotateAt := DueAfter(now, t.every), retireAt := Some(DueAfter(now, Grace(t))));
    RotationKeeps(t, h, now, k, distance);
    SignKeeps(t, Past(turned, h.signedAt, h.rotatedAt + [now.run], now.run), now, distance, turned.cert);
    assert ring.current.value.pub != h.n.ring.current.value.pub;
  }

  /** Whether this tick turns the ring. */
  predicate Turns(t: Terms, h: Past, now: Instant, made: Option<Made>) {
    var m := Released(h.n, now);
    && !h.n.ring.closed && Passed(m.rotateAt, now) && m.retireAt.None? && made.Some?
    && var k := made.value; Ring.Rotated(m.ring, t.pubSize, k.handle, Some(k.priv), k.pub, k.pair).1.Ok?
  }

  lemma QuietTick(t: Terms, h: Past, now: Instant, made: Option<Made>, distance: int)
    requires Kept(t, Past(Released(h.n, now), h.signedAt, h.rotatedAt, now.run), distance) && !h.n.ring.closed && !Turns(t, h, now, made)
    ensures Kept(t, Step(t, h, now, Tick(made)), distance)
    ensures Due(t, h.n, now, made).ring == Released(h.n, now).ring
  {
    var m := Past(Released(h.n, now), h.signedAt, h.rotatedAt, now.run);
    var h' := Step(t, h, now, Tick(made));
    assert h' == m.(n := m.n.(failures := h'.n.failures));
    forall i | 0 <= i < |h'.n.signed| ensures CoveredOne(t, h', h'.n.signed[i], h'.signedAt[i], distance) {
      assert CoveredOne(t, m, m.n.signed[i], m.signedAt[i], distance);
    }
  }

  lemma TurningTick(t: Terms, h: Past, now: Instant, made: Option<Made>, distance: int)
    requires Kept(t, Past(Released(h.n, now), h.signedAt, h.rotatedAt, now.run), distance) && Turns(t, h, now, made)
    requires OneClock(h, now, distance)
    ensures Kept(t, Step(t, h, now, Tick(made)), distance)
    ensures Due(t, h.n, now, made).ring.released == Released(h.n, now).ring.released
  {
    TurnKeeps(t, Past(Released(h.n, now), h.signedAt, h.rotatedAt, now.run), now, made.value, distance);
  }

  /** A tick keeps the schedule, and a rotation frees no key: only a release that has come does. */
  lemma TickKeeps(t: Terms, h: Past, now: Instant, made: Option<Made>, distance: int)
    requires Kept(t, h, distance) && OneClock(h, now, distance)
    ensures Kept(t, Step(t, h, now, Tick(made)), distance)
    ensures Due(t, h.n, now, made).ring.released == Released(h.n, now).ring.released
  {
    ReleaseKeeps(t, h, now, distance);
    if Turns(t, h, now, made) {
      TurningTick(t, h, now, made, distance);
    } else {
      QuietTick(t, h, now, made, distance);
    }
  }

  lemma BurnKeeps(t: Terms, h: Past, now: Instant, current: bool, tag: Replay.SetupTag, distance: int)
    requires Kept(t, h, distance) && OneClock(h, now, distance)
    ensures Kept(t, Step(t, h, now, Burned(current, tag)), distance)
  {
    var h' := Step(t, h, now, Burned(current, tag));
    forall i | 0 <= i < |h'.n.signed| ensures CoveredOne(t, h', h'.n.signed[i], h'.signedAt[i], distance) {
      assert CoveredOne(t, h, h.n.signed[i], h.signedAt[i], distance);
    }
  }

  lemma StepKeeps(t: Terms, h: Past, now: Instant, e: Event, distance: int)
    requires Kept(t, h, distance) && OneClock(h, now, distance)
    ensures Kept(t, Step(t, h, now, e), distance)
  {
    match e
    case Tick(made) => TickKeeps(t, h, now, made, distance);
    case Resign => SignKeeps(t, h, now, distance, h.n.cert);
    case Install(c) => SignKeeps(t, h, now, distance, Some(c));
    case Burned(current, tag) => BurnKeeps(t, h, now, current, tag, distance);
  }

  datatype Timed = Timed(at: Instant, event: Event)

  function Run(t: Terms, first: Past, events: seq<Timed>): Past {
    if events == [] then first
    else Step(t, Run(t, first, events[..|events| - 1]), events[|events| - 1].at, events[|events| - 1].event)
  }

  predicate Steady(start: int, events: seq<Timed>, distance: int) {
    && (forall i :: 0 <= i < |events| ==> events[i].at.wall == events[i].at.run + distance && start <= events[i].at.run)
    && (forall i, j :: 0 <= i < j < |events| ==> events[i].at.run <= events[j].at.run)
  }

  lemma StartKept(t: Terms, ring: Ring.State, start: Instant)
    requires ring.current.Some? && ring.previous.None? && !ring.closed
    ensures Kept(t, Start(ring, t, start), start.wall - start.run)
  {}

  lemma SteadyInit(start: int, events: seq<Timed>, distance: int)
    requires Steady(start, events, distance) && events != []
    ensures var init, e := events[..|events| - 1], events[|events| - 1];
            && Steady(start, init, distance) && e.at.wall == e.at.run + distance && start <= e.at.run
            && (init != [] ==> init[|init| - 1].at.run <= e.at.run)
  {}

  lemma RunLast(t: Terms, first: Past, events: seq<Timed>)
    ensures Run(t, first, events).last == if events == [] then first.last else events[|events| - 1].at.run
  {}

  lemma {:induction false} RunKept(t: Terms, ring: Ring.State, start: Instant, events: seq<Timed>)
    requires ring.current.Some? && ring.previous.None? && !ring.closed
    requires Steady(start.run, events, start.wall - start.run)
    ensures Kept(t, Run(t, Start(ring, t, start), events), start.wall - start.run)
    ensures Run(t, Start(ring, t, start), events).last == if events == [] then start.run else events[|events| - 1].at.run
  {
    var first := Start(ring, t, start);
    RunLast(t, first, events);
    if events == [] {
      StartKept(t, ring, start);
    } else {
      var init, e := events[..|events| - 1], events[|events| - 1];
      SteadyInit(start.run, events, start.wall - start.run);
      RunKept(t, ring, start, init);
      StepKeeps(t, Run(t, first, init), e.at, e.event, start.wall - start.run);
    }
  }

  /**
   At every moment, whatever was signed, rotated, failed to rotate and released
   before it: while a verifier whose clock is at most the allowance behind accepts
   a descriptor, the ring holds the key the descriptor names.
   */
  lemma AcceptedKeyIsHeld(t: Terms, ring: Ring.State, start: Instant, events: seq<Timed>,
                          moment: int, d: Descriptor, c: Cert, clock: int, skew: int, life: int)
    requires ring.current.Some? && ring.previous.None? && !ring.closed
    requires Steady(start.run, events, start.wall - start.run)
    requires d in Run(t, Start(ring, t, start), events).n.signed
    // the events are those up to this moment of the node's wall clock
    requires Run(t, Start(ring, t, start), events).last + (start.wall - start.run) <= moment
    requires clock >= moment - SKEW && Accepts(d, c, clock, skew, life)
    ensures HoldsKey(Run(t, Start(ring, t, start), events).n.ring, d.onion)
  {
    var h, distance := Run(t, Start(ring, t, start), events), start.wall - start.run;
    RunKept(t, ring, start, events);
    var i :| 0 <= i < |h.n.signed| && h.n.signed[i] == d;
    assert CoveredOne(t, h, d, h.signedAt[i], distance);
    BeforeExpiry(clock, h.signedAt[i] + distance + t.ttl, d.expires);
  }

  lemma BeforeExpiry(clock: int, end: int, expires: int)
    requires Unix(clock) < expires <= Unix(end)
    ensures clock < end
  {}

  /** Rotations are at least the period apart, and from the second on at least the grace as well. */
  lemma RotationsSpaced(t: Terms, ring: Ring.State, start: Instant, events: seq<Timed>, i: nat)
    requires ring.current.Some? && ring.previous.None? && !ring.closed
    requires Steady(start.run, events, start.wall - start.run)
    requires 1 <= i < |Run(t, Start(ring, t, start), events).rotatedAt|
    ensures var r := Run(t, Start(ring, t, start), events).rotatedAt;
            r[i] - r[i - 1] >= t.every && (i > 1 ==> r[i] - r[i - 1] >= Grace(t))
  {
    RunKept(t, ring, start, events);
  }

  /** Whatever the two clocks do, no check leaves a replaced key behind whose moment either of them has reached. */
  lemma NeverKeptLate(t: Terms, n: Node, now: Instant, made: Option<Made>)
    requires !n.ring.closed && t.ttl > 0 && (n.retireAt.None? ==> n.ring.previous.None?)
    ensures var m := Due(t, n, now, made);
            m.ring.previous.Some? ==>
              m.retireAt.Some? && now.wall < m.retireAt.value.wall && now.run < m.retireAt.value.run
  {}

  // ------------------------------------------------------- rotations that happen

  /** The latest rotation, or the start. */
  function LastRotation(h: Past): int
    requires h.rotatedAt != []
  {
    h.rotatedAt[|h.rotatedAt| - 1]
  }

  /** Either reading has come so far since the latest rotation. */
  predicate Since(h: Past, now: Instant, distance: int, d: int)
    requires h.rotatedAt != []
  {
    now.run - LastRotation(h) >= d || now.wall - (LastRotation(h) + distance) >= d
  }

  /** A pair that may replace the current key. */
  predicate GoodPair(t: Terms, h: Past, made: Option<Made>) {
    && made.Some? && |made.value.pub| == t.pubSize && made.value.pair
    && h.n.ring.current.Some? && made.value.pub != h.n.ring.current.value.pub
  }

  /**
   A tick rotates exactly when the period has passed since the latest rotation, no
   replaced key still has its grace to run, and a good pair came. Whatever the
   clocks do, either of them is enough.
   */
  lemma RotatesExactly(t: Terms, h: Past, now: Instant, made: Option<Made>, distance: int)
    requires Kept(t, h, distance)
    ensures var rotates := && Since(h, now, distance, t.every)
                           && (h.n.ring.previous.None? || Since(h, now, distance, t.ttl + 2 * MINUTE))
                           && GoodPair(t, h, made);
            var n, n' := h.n, Step(t, h, now, Tick(made)).n;
            if rotates then
              && n'.ring.current == Some(Ring.OnionKey((n.ring.current.value.epoch + 1) % 0x1_0000_0000, made.value.handle,
                                                       made.value.priv, made.value.pub, {}))
              && n'.ring.previous == n.ring.current && !n'.ring.closed
              && n'.rotateAt.wall == now.wall + t.every && n'.rotateAt.run == now.run + t.every
              && n'.retireAt.Some? && n'.retireAt.value.wall == now.wall + t.ttl + 2 * MINUTE
              && n'.retireAt.value.run == now.run + t.ttl + 2 * MINUTE
            else
              && n'.ring.current == n.ring.current && n'.rotateAt == n.rotateAt && n'.signed == n.signed
              && n'.ring.previous == (if Since(h, now, distance, t.ttl + 2 * MINUTE) then None else n.ring.previous)
  {}

  /** Once the ring is closed a check does nothing at all, not even count. */
  lemma ClosedNodeRests(t: Terms, n: Node, now: Instant, made: Option<Made>)
    requires n.ring.closed
    ensures Due(t, n, now, made) == n
  {}

  /** A check counts a failure exactly when a rotation was due and no good pair came. */
  lemma FailuresCounted(t: Terms, h: Past, now: Instant, made: Option<Made>, distance: int)
    requires Kept(t, h, distance)
    ensures var due := Since(h, now, distance, t.every) && (h.n.ring.previous.None? || Since(h, now, distance, t.ttl + 2 * MINUTE));
            Step(t, h, now, Tick(made)).n.failures == h.n.failures + if due && !GoodPair(t, h, made) then 1 else 0
  {}

  /** And the descriptor for the new key is signed in the same step, while the certificate allows one. */
  lemma RotationSigns(t: Terms, h: Past, now: Instant, made: Option<Made>, distance: int)
    requires Kept(t, h, distance) && Since(h, now, distance, t.every) && GoodPair(t, h, made)
    requires h.n.ring.previous.None? || Since(h, now, distance, t.ttl + 2 * MINUTE)
    ensures var n, n' := h.n, Step(t, h, now, Tick(made)).n;
            if n.cert.Some? && 0 < t.ttl <= 24 * HOUR && Unix(now.wall + t.ttl) > Unix(now.wall) && n.cert.value.notAfter > Unix(now.wall) then
              && |n'.signed| == |n.signed| + 1 && n'.signed[..|n.signed|] == n.signed
              && var d := n'.signed[|n.signed|];
                 && d.onion == made.value.pub && d.epoch == n'.ring.current.value.epoch && d.published == Unix(now.wall)
                 && d.expires <= Unix(now.wall + t.ttl) && d.expires <= n.cert.value.notAfter
                 && (d.expires == Unix(now.wall + t.ttl) || d.expires == n.cert.value.notAfter)
            else n'.signed == n.signed
  {
    RotatesExactly(t, h, now, made, distance);
    RefreshedExactly(h.n.cert, made.value.pub, (h.n.ring.current.value.epoch + 1) % 0x1_0000_0000, now.wall, t.ttl);
  }

  /** The current key is the pair that just came, or younger than the period or the grace. */
  ghost predicate Young(t: Terms, h: Past, made: Made, now: int) {
    && h.rotatedAt != [] && h.n.ring.current.Some?
    && (|| (h.n.ring.current.value.pub == made.pub && LastRotation(h) == now)
        || now - LastRotation(h) < t.every || now - LastRotation(h) < t.ttl + 2 * MINUTE)
  }

  lemma TickYoung(t: Terms, h: Past, now: Instant, made: Option<Made>, distance: int)
    requires Kept(t, h, distance) && GoodPair(t, h, made)
    ensures Young(t, Step(t, h, now, Tick(made)), made.value, now.run)
  {
    RotatesExactly(t, h, now, made, distance);
  }

  /**
   In every run, once a good pair comes the current key is that pair or it was made
   less than the period, or less than the grace of the key before it, ago. So no
   key stays current longer than the larger of the two and the wait for a good pair.
   */
  lemma {:induction false} NoKeyGrowsOld(t: Terms, ring: Ring.State, start: Instant, events: seq<Timed>)
    requires ring.current.Some? && ring.previous.None? && !ring.closed
    requires Steady(start.run, events, start.wall - start.run) && events != []
    requires var before := Run(t, Start(ring, t, start), events[..|events| - 1]);
             events[|events| - 1].event.Tick? && GoodPair(t, before, events[|events| - 1].event.made)
    ensures var e := events[|events| - 1];
            Young(t, Run(t, Start(ring, t, start), events), e.event.made.value, e.at.run)
  {
    var init, e, distance := events[..|events| - 1], events[|events| - 1], start.wall - start.run;
    SteadyInit(start.run, events, distance);
    RunKept(t, ring, start, init);
    RunTick(t, Start(ring, t, start), events);
    TickYoung(t, Run(t, Start(ring, t, start), init), e.at, e.event.made, distance);
  }

  lemma RunTick(t: Terms, first: Past, events: seq<Timed>)
    requires events != [] && events[|events| - 1].event.Tick?
    ensures var init, e := events[..|events| - 1], events[|events| - 1];
            Run(t, first, events) == Step(t, Run(t, first, init), e.at, Tick(e.event.made))
  {}

  /** Signing again, and taking a certificate, sign for the current key exactly when one may be signed. */
  lemma SignsExactly(t: Terms, n: Node, now: Instant)
    ensures var n' := Signed(t, n, now);
            && n' == n.(signed := n'.signed)
            && if n.ring.current.Some? && n.cert.Some? && 0 < t.ttl <= 24 * HOUR
                  && Unix(now.wall + t.ttl) > Unix(now.wall) && n.cert.value.notAfter > Unix(now.wall) then
                 && |n'.signed| == |n.signed| + 1 && n'.signed[..|n.signed|] == n.signed
                 && n'.signed[|n.signed|].onion == n.ring.current.value.pub && n'.signed[|n.signed|].epoch == n.ring.current.value.epoch
                 && n'.signed[|n.signed|].published == Unix(now.wall)
               else n'.signed == n.signed
  {
    if n.ring.current.Some? {
      RefreshedExactly(n.cert, n.ring.current.value.pub, n.ring.current.value.epoch, now.wall, t.ttl);
    }
  }
}
