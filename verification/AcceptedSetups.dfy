/** A setup for a key that an accepted descriptor names opens when it comes (cmd/relay/onion.go, relay/onion.go, wire/setup.go). */
module AcceptedSetups {
  import opened Results
  import opened ByteStrings
  import opened Ciphers
  import opened Cells
  import opened Setup
  import opened Windows
  import Ring
  import opened Rotation
  import Replay

  /** The tags of the setups let through so far. */
  function TagsOf(events: seq<Timed>): set<Replay.SetupTag> {
    if events == [] then {}
    else
      var init, e := events[..|events| - 1], events[|events| - 1].event;
      if e.Burned? then TagsOf(init) + {e.tag} else TagsOf(init)
  }

  /** The check of a new pair is worth what it says: the public key is the private key's. */
  ghost predicate Honest(p: Provider, events: seq<Timed>) {
    forall i :: 0 <= i < |events| ==> HonestOne(p, events[i].event)
  }

  ghost predicate HonestOne(p: Provider, e: Event) {
    e.Tick? && e.made.Some? && e.made.value.pair ==> p.publicOf(e.made.value.priv) == e.made.value.pub
  }

  /** Every key held is a pair, and remembers only tags let through since. */
  ghost predicate Paired(p: Provider, s: Ring.State, tags: set<Replay.SetupTag>) {
    forall k :: k in Ring.Live(s) ==> p.publicOf(k.priv) == k.pub && k.setups <= tags
  }

  lemma DuePaired(p: Provider, t: Terms, n: Node, now: Instant, made: Option<Made>, tags: set<Replay.SetupTag>)
    requires Paired(p, n.ring, tags) && HonestOne(p, Tick(made))
    ensures Paired(p, Due(t, n, now, made).ring, tags)
  {
    var m := Released(n, now);
    assert forall k :: k in Ring.Live(m.ring) ==> k in Ring.Live(n.ring);
    if made.Some? {
      var k := made.value;
      var (ring, r) := Ring.Rotated(m.ring, t.pubSize, k.handle, Some(k.priv), k.pub, k.pair);
      assert r.Ok? ==> forall x :: x in Ring.Live(ring) ==> x in Ring.Live(m.ring) || x == Ring.OnionKey(r.value, k.handle, k.priv, k.pub, {});
    }
  }

  lemma NextPaired(p: Provider, t: Terms, n: Node, now: Instant, e: Event, tags: set<Replay.SetupTag>)
    requires Paired(p, n.ring, tags) && HonestOne(p, e)
    ensures Paired(p, Next(t, n, now, e).ring, if e.Burned? then tags + {e.tag} else tags)
  {
    match e
    case Tick(made) => DuePaired(p, t, n, now, made, tags);
    case Resign =>
    case Install(c) =>
    case Burned(current, tag) =>
      var s, s' := n.ring, Ring.Tagged(n.ring, current, tag);
      forall k | k in Ring.Live(s') ensures p.publicOf(k.priv) == k.pub && k.setups <= tags + {tag} {
        if k !in Ring.Live(s) {
          var was := if current then s.current.value else s.previous.value;
          assert was in Ring.Live(s) && k == Ring.Burn(was, tag);
        }
      }
  }

  lemma {:induction false} RunPaired(p: Provider, t: Terms, first: Past, events: seq<Timed>)
    requires Paired(p, first.n.ring, {}) && Honest(p, events)
    ensures Paired(p, Run(t, first, events).n.ring, TagsOf(events))
  {
    if events != [] {
      var init, e := events[..|events| - 1], events[|events| - 1];
      assert HonestOne(p, e.event);
      RunPaired(p, t, first, init);
      NextPaired(p, t, Run(t, first, init).n, e.at, e.event, TagsOf(init));
    }
  }

  lemma {:induction false} FewerThan<T>(a: set<T>, b: set<T>)
    requires a <= b
    ensures |a| <= |b|
  {
    if a != {} {
      var x :| x in a;
      FewerThan(a - {x}, b - {x});
    }
  }

  /** A setup on its way into hop i, built for this public key. */
  ghost predicate SetupFor(p: Provider, chain: seq<SetupHop>, ephs: seq<Key>, keys: seq<HopKeys>, tail: Bytes, i: nat, pub: Bytes, cell: Cell)
    requires Lawful(p)
  {
    && KeysAgreed(p, chain, ephs, keys) && i < |chain| && Linked(chain) && chain[i].staticPub == pub
    && (forall j :: 0 <= j < |chain| ==> |chain[j].nextAddr| <= ADDR_SIZE)
    && SetupLayerLen(p, |chain|) >= 0 && |tail| == SetupLayerLen(p, |chain|)
    && SetupAt(p, chain, ephs, keys, tail, i, cell)
  }

  /** A ring that holds the key lets the setup through with the layer it is owed, if its tag is new and there is room. */
  lemma HeldKeyOpens(p: Provider, max: nat, s: Ring.State, tags: set<Replay.SetupTag>,
                     chain: seq<SetupHop>, ephs: seq<Key>, keys: seq<HopKeys>, tail: Bytes, i: nat, pub: Bytes, cell: Cell)
    requires Lawful(p) && Ring.Exclusive(p) && SetupFor(p, chain, ephs, keys, tail, i, pub, cell)
    requires !s.closed && HoldsKey(s, pub) && Paired(p, s, tags) && keys[i].tag !in tags && |tags| < max
    ensures Ring.Tried(s, p, max, cell).1 == Ok(Owing(p, chain, ephs, keys, tail, i))
  {
    var k := if s.current.Some? && s.current.value.pub == pub then s.current.value else s.previous.value;
    assert k in Ring.Live(s);
    HopOpens(p, chain, ephs, keys, tail, i, k.priv, cell);
    Ring.OpensExactly(p, max, s, cell);
    FewerThan(k.setups, tags);
    assert Ring.Reads(p, s.current, cell) ==> s.current.value.pub == pub;
  }

  /**
   At every moment of every run: while a verifier accepts a descriptor of this
   node, a setup built for the key it names opens the first time it comes, and
   opens to the layer its client put there for this hop. Between the signing and
   the arrival the key may have been replaced, and other setups let through.
   */
  lemma AcceptedSetupOpens(p: Provider, max: nat, t: Terms, ring: Ring.State, start: Instant, events: seq<Timed>,
                           moment: int, d: Descriptor, c: Cert, clock: int, skew: int, life: int,
                           chain: seq<SetupHop>, ephs: seq<Key>, keys: seq<HopKeys>, tail: Bytes, i: nat, cell: Cell)
    requires Lawful(p) && Ring.Exclusive(p)
    requires ring.current.Some? && ring.previous.None? && !ring.closed && Paired(p, ring, {}) && Honest(p, events)
    requires Steady(start.run, events, start.wall - start.run)
    requires d in Run(t, Start(ring, t, start), events).n.signed
    requires Run(t, Start(ring, t, start), events).last + (start.wall - start.run) <= moment
    requires clock >= moment - SKEW && Accepts(d, c, clock, skew, life)
    requires SetupFor(p, chain, ephs, keys, tail, i, d.onion, cell)
    // the cell's tag was not let through before, nor as many others as a key remembers
    requires keys[i].tag !in TagsOf(events) && |TagsOf(events)| < max
    ensures Ring.Tried(Run(t, Start(ring, t, start), events).n.ring, p, max, cell).1 == Ok(Owing(p, chain, ephs, keys, tail, i))
  {
    var first := Start(ring, t, start);
    RunKept(t, ring, start, events);
    AcceptedKeyIsHeld(t, ring, start, events, moment, d, c, clock, skew, life);
    RunPaired(p, t, first, events);
    HeldKeyOpens(p, max, Run(t, first, events).n.ring, TagsOf(events), chain, ephs, keys, tail, i, d.onion, cell);
  }
}
