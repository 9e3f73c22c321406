/** No hop key is ever used twice under one nonce, over the whole life of a circuit. */
module NonceUse {
  import opened Results
  import opened ByteStrings
  import opened Counters
  import opened Nonces
  import opened Cells
  import opened Ciphers
  import opened Onion
  import opened Journeys
  import opened Replay
  import opened RelayCircuits
  import opened Clients
  import opened Protocol

  ghost predicate Distinct(u: seq<Use>) {
    forall i, j :: 0 <= i < j < |u| ==> u[i] != u[j]
  }

  /** A forward layer of a cell the client has sealed. */
  ghost predicate ByClient(c: Circuit, sent: nat, u: Use)
    requires c.Shaped() && c.aead.nonceSize >= 16 && sent <= CELL_LIMIT
  {
    exists i, k :: 0 <= i < c.Hops() && 0 <= k < sent && u == ClientUse(c, i, k)
  }

  /** A backward layer a relay has added to a cell it took in turn. */
  ghost predicate ByRelay(c: Circuit, offsets: seq<Offsets>, flows: seq<Flow>, u: Use)
    requires c.Shaped() && c.aead.nonceSize >= 16 && 1 <= c.Hops() == |flows| == |offsets|
    requires forall i :: 0 <= i < c.Hops() ==> Reachable(flows[i].bwd)
  {
    exists i, v: Counter :: 0 <= i < Last(c) && WasTaken(flows[i].bwd, v) && u == RelayUse(c, offsets, i, v)
  }

  /** The exit's layer of a reply it has numbered. */
  ghost predicate ByExit(c: Circuit, offsets: seq<Offsets>, answered: nat, u: Use)
    requires c.Shaped() && c.aead.nonceSize >= 16 && 1 <= c.Hops() == |offsets| && answered <= CELL_LIMIT
  {
    exists k :: 0 <= k < answered && u == RelayUse(c, offsets, Last(c), k)
  }

  ghost predicate Known(c: Circuit, offsets: seq<Offsets>, w: World, u: Use)
    requires Invariant(c, offsets, w)
  {
    ByClient(c, w.talk.sent, u) || ByRelay(c, offsets, w.flows, u) || ByExit(c, offsets, |w.answers|, u)
  }

  ghost predicate UsedOnce(c: Circuit, offsets: seq<Offsets>, w: World)
    requires Invariant(c, offsets, w)
  {
    Distinct(w.uses) && forall u :: u in w.uses ==> Known(c, offsets, w, u)
  }

  // ------------------------------------------------------- uses that differ

  /** Forward and backward uses of a key never meet: the direction is in the nonce. */
  lemma DirectionsApart(c: Circuit, offsets: seq<Offsets>, i: nat, k: Counter, j: nat, v: Counter)
    requires c.Shaped() && i < c.Hops() && j < c.Hops() == |offsets| && c.aead.nonceSize >= 16
    ensures ClientUse(c, i, k) != RelayUse(c, offsets, j, v)
  {
    if ClientUse(c, i, k) == RelayUse(c, offsets, j, v) {
      NonceInjective(c.aead.nonceSize, Forward, c.links[i], ValueAt(c, i, Forward, k),
                     Backward, c.links[j], Shift(v, offsets[j].backward));
    }
  }

  lemma ClientUsesApart(c: Circuit, i: nat, k: Counter, j: nat, l: Counter)
    requires c.Shaped() && i < c.Hops() && j < c.Hops() && c.aead.nonceSize >= 16
    requires ClientUse(c, i, k) == ClientUse(c, j, l)
    ensures i == j && k == l
  {
    NonceInjective(c.aead.nonceSize, Forward, c.links[i], ValueAt(c, i, Forward, k),
                   Forward, c.links[j], ValueAt(c, j, Forward, l));
    SameCounter(c, i, k, l);
  }

  lemma RelayUsesApart(c: Circuit, offsets: seq<Offsets>, i: nat, v: Counter, j: nat, u: Counter)
    requires c.Shaped() && i < c.Hops() == |offsets| && j < c.Hops() && c.aead.nonceSize >= 16
    requires RelayUse(c, offsets, i, v) == RelayUse(c, offsets, j, u)
    ensures i == j && v == u
  {
    NonceInjective(c.aead.nonceSize, Backward, c.links[i], Shift(v, offsets[i].backward),
                   Backward, c.links[j], Shift(u, offsets[j].backward));
    ShiftInjective(v, u, offsets[i].backward);
  }

  /** Sealing one cell uses each hop's key once. */
  lemma {:induction false} SealUsesOnce(c: Circuit, counter: Counter, i: nat)
    requires c.Shaped() && i <= c.Hops() && c.aead.nonceSize >= 16
    ensures Distinct(SealUses(c, counter, i))
    ensures forall u :: u in SealUses(c, counter, i) ==> i <= u.hop < c.Hops() && u == ClientUse(c, u.hop, counter)
    decreases c.Hops() - i
  {
    if i < c.Hops() {
      SealUsesOnce(c, counter, i + 1);
    }
  }

  lemma DistinctConcat(a: seq<Use>, b: seq<Use>)
    requires Distinct(a) && Distinct(b) && forall u :: u in b ==> u !in a
    ensures Distinct(a + b)
  {
    forall i, j | 0 <= i < j < |a + b| ensures (a + b)[i] != (a + b)[j] {
      if i < |a| <= j {
        assert b[j - |a|] in b && a[i] in a;
      }
    }
  }

  // -------------------------------------------------- every step keeps it so

  /** Nothing an honest party has used becomes unknown. */
  lemma KnownKept(c: Circuit, offsets: seq<Offsets>, w: World, w': World, u: Use)
    requires Invariant(c, offsets, w) && Invariant(c, offsets, w') && Known(c, offsets, w, u)
    requires w.talk.sent <= w'.talk.sent && |w.answers| <= |w'.answers|
    requires forall i, v: Counter :: 0 <= i < Last(c) && WasTaken(w.flows[i].bwd, v) ==> WasTaken(w'.flows[i].bwd, v)
    ensures Known(c, offsets, w', u)
  {
    if ByClient(c, w.talk.sent, u) {
      var i, k :| 0 <= i < c.Hops() && 0 <= k < w.talk.sent && u == ClientUse(c, i, k);
      assert ByClient(c, w'.talk.sent, u);
    } else if ByRelay(c, offsets, w.flows, u) {
      var i, v: Counter :| 0 <= i < Last(c) && WasTaken(w.flows[i].bwd, v) && u == RelayUse(c, offsets, i, v);
      assert WasTaken(w'.flows[i].bwd, v);
      assert ByRelay(c, offsets, w'.flows, u);
    } else {
      var k :| 0 <= k < |w.answers| && u == RelayUse(c, offsets, Last(c), k);
      assert ByExit(c, offsets, |w'.answers|, u);
    }
  }

  /** New uses that are distinct, known and not known before leave every use distinct. */
  lemma AddUses(c: Circuit, offsets: seq<Offsets>, w: World, w': World, more: seq<Use>)
    requires Invariant(c, offsets, w) && Invariant(c, offsets, w') && UsedOnce(c, offsets, w)
    requires w.talk.sent <= w'.talk.sent && |w.answers| <= |w'.answers|
    requires forall i, v: Counter :: 0 <= i < Last(c) && WasTaken(w.flows[i].bwd, v) ==> WasTaken(w'.flows[i].bwd, v)
    requires w'.uses == w.uses + more && Distinct(more)
    requires forall u :: u in more ==> !Known(c, offsets, w, u) && Known(c, offsets, w', u)
    ensures UsedOnce(c, offsets, w')
  {
    DistinctConcat(w.uses, more);
    forall u | u in w'.uses ensures Known(c, offsets, w', u) {
      if u in w.uses {
        KnownKept(c, offsets, w, w', u);
      }
    }
  }

  lemma SendFresh(c: Circuit, offsets: seq<Offsets>, w: World, u: Use)
    requires Invariant(c, offsets, w) && w.talk.sent < CELL_LIMIT
    requires u.hop < c.Hops() && u == ClientUse(c, u.hop, w.talk.sent)
    ensures !Known(c, offsets, w, u)
  {
    if ByClient(c, w.talk.sent, u) {
      var i, k :| 0 <= i < c.Hops() && 0 <= k < w.talk.sent && u == ClientUse(c, i, k);
      ClientUsesApart(c, u.hop, w.talk.sent, i, k);
    }
    if ByRelay(c, offsets, w.flows, u) {
      var i, v: Counter :| 0 <= i < Last(c) && WasTaken(w.flows[i].bwd, v) && u == RelayUse(c, offsets, i, v);
      DirectionsApart(c, offsets, u.hop, w.talk.sent, i, v);
    }
    if ByExit(c, offsets, |w.answers|, u) {
      var k :| 0 <= k < |w.answers| && u == RelayUse(c, offsets, Last(c), k);
      DirectionsApart(c, offsets, u.hop, w.talk.sent, Last(c), k);
    }
  }

  /** A backward use at hop j for a value never taken there, or a reply number not yet given. */
  lemma BackFresh(c: Circuit, offsets: seq<Offsets>, w: World, j: nat, v: Counter)
    requires Invariant(c, offsets, w) && j < c.Hops()
    requires j < Last(c) ==> !WasTaken(w.flows[j].bwd, v)
    requires j == Last(c) ==> v >= |w.answers|
    ensures !Known(c, offsets, w, RelayUse(c, offsets, j, v))
  {
    var u := RelayUse(c, offsets, j, v);
    if ByClient(c, w.talk.sent, u) {
      var i, k :| 0 <= i < c.Hops() && 0 <= k < w.talk.sent && u == ClientUse(c, i, k);
      DirectionsApart(c, offsets, i, k, j, v);
    }
    if ByRelay(c, offsets, w.flows, u) {
      var i, t: Counter :| 0 <= i < Last(c) && WasTaken(w.flows[i].bwd, t) && u == RelayUse(c, offsets, i, t);
      RelayUsesApart(c, offsets, j, v, i, t);
    }
    if ByExit(c, offsets, |w.answers|, u) {
      var k :| 0 <= k < |w.answers| && u == RelayUse(c, offsets, Last(c), k);
      RelayUsesApart(c, offsets, j, v, Last(c), k);
    }
  }

  lemma SendOnce(c: Circuit, offsets: seq<Offsets>, w: World, m: Message, pad: Bytes)
    requires Invariant(c, offsets, w) && UsedOnce(c, offsets, w) && Possible(c, Send(m, pad))
    requires Invariant(c, offsets, Step(c, offsets, w, Send(m, pad)))
    ensures UsedOnce(c, offsets, Step(c, offsets, w, Send(m, pad)))
  {
    var w' := Step(c, offsets, w, Send(m, pad));
    SendRecords(c, offsets, w, m, pad);
    if SendOne(c, w.talk, m, pad).1.Ok? {
      var more := SealUses(c, w.talk.sent, 0);
      SealUsesOnce(c, w.talk.sent, 0);
      forall u | u in more ensures !Known(c, offsets, w, u) && Known(c, offsets, w', u) {
        SendFresh(c, offsets, w, u);
        assert ByClient(c, w'.talk.sent, u);
      }
      AddUses(c, offsets, w, w', more);
    }
  }

  lemma ExitOnce(c: Circuit, offsets: seq<Offsets>, w: World, cell: Cell, refill: Body, answer: Option<Bytes>, pad: Bytes, tail: Body)
    requires Invariant(c, offsets, w) && UsedOnce(c, offsets, w) && Possible(c, Exit(cell, refill, answer, pad, tail))
    requires Invariant(c, offsets, Step(c, offsets, w, Exit(cell, refill, answer, pad, tail)))
    ensures UsedOnce(c, offsets, Step(c, offsets, w, Exit(cell, refill, answer, pad, tail)))
  {
    var w' := Step(c, offsets, w, Exit(cell, refill, answer, pad, tail));
    var n := w.flows[Last(c)].replies;
    GuardedFits(c, offsets, w.log, Last(c));
    ExitRecords(c, offsets, w, cell, refill, answer, pad, tail);
    if w'.uses == w.uses {
      AddUses(c, offsets, w, w', []);
    } else {
      BackFresh(c, offsets, w, Last(c), n);
      assert ByExit(c, offsets, |w'.answers|, RelayUse(c, offsets, Last(c), n));
      AddUses(c, offsets, w, w', [RelayUse(c, offsets, Last(c), n)]);
    }
  }

  lemma BackOnce(c: Circuit, offsets: seq<Offsets>, w: World, i: nat, cell: Cell, refill: Body)
    requires Invariant(c, offsets, w) && UsedOnce(c, offsets, w) && Possible(c, Back(i, cell, refill))
    requires Invariant(c, offsets, Step(c, offsets, w, Back(i, cell, refill)))
    ensures UsedOnce(c, offsets, Step(c, offsets, w, Back(i, cell, refill)))
  {
    var w' := Step(c, offsets, w, Back(i, cell, refill));
    GuardedFits(c, offsets, w.log, i);
    BackRecords(c, offsets, w, i, cell, refill);
    var f := w.flows[i];
    var h := HeaderOf(cell);
    if f.alive && h.Some? && Due(f.bwd, h.value.counter) {
      TakesOnce(f.bwd, h.value.counter);
    }
    if w'.uses == w.uses {
      AddUses(c, offsets, w, w', []);
    } else {
      var v := h.value.counter;
      BackFresh(c, offsets, w, i, v);
      assert WasTaken(w'.flows[i].bwd, v);
      assert ByRelay(c, offsets, w'.flows, RelayUse(c, offsets, i, v));
      AddUses(c, offsets, w, w', [RelayUse(c, offsets, i, v)]);
    }
  }

  lemma StepOnce(c: Circuit, offsets: seq<Offsets>, w: World, a: Action)
    requires Invariant(c, offsets, w) && UsedOnce(c, offsets, w) && Possible(c, a)
    requires Invariant(c, offsets, Step(c, offsets, w, a))
    ensures UsedOnce(c, offsets, Step(c, offsets, w, a))
  {
    var w' := Step(c, offsets, w, a);
    match a
    case Send(m, pad) => SendOnce(c, offsets, w, m, pad);
    case Exit(cell, refill, answer, pad, tail) => ExitOnce(c, offsets, w, cell, refill, answer, pad, tail);
    case Back(i, cell, refill) => BackOnce(c, offsets, w, i, cell, refill);
    case Pass(_, _, _) => AddUses(c, offsets, w, w', []);
    case Receive(_) => AddUses(c, offsets, w, w', []);
    case Close(_) => AddUses(c, offsets, w, w', []);
    case Forge(_) => AddUses(c, offsets, w, w', []);
  }

  /**
   In every run, whatever the adversary feeds the relays: the client's forward
   layers, the relays' backward layers and the exit's replies all use a hop key
   under a nonce that key was never used under before.
   */
  lemma NeverReused(c: Circuit, offsets: seq<Offsets>, actions: seq<Action>)
    requires Chain(c, offsets) && forall a :: a in actions ==> Possible(c, a)
    ensures Distinct(Run(c, offsets, actions).uses)
  {
    UsedOnceAlways(c, offsets, actions);
  }

  lemma {:induction false} UsedOnceAlways(c: Circuit, offsets: seq<Offsets>, actions: seq<Action>)
    requires Chain(c, offsets) && forall a :: a in actions ==> Possible(c, a)
    ensures UsedOnce(c, offsets, Run(c, offsets, actions))
    decreases |actions|
  {
    RunUnfolds(c, offsets, actions);
    if actions == [] {
      NothingUsed(c, offsets);
    } else {
      var init, a := actions[..|actions| - 1], actions[|actions| - 1];
      UsedOnceAlways(c, offsets, init);
      var w := Run(c, offsets, init);
      StepKeeps(c, offsets, w, a);
      StepOnce(c, offsets, w, a);
    }
  }

  lemma NothingUsed(c: Circuit, offsets: seq<Offsets>)
    requires Chain(c, offsets) && Invariant(c, offsets, Initial(c))
    ensures UsedOnce(c, offsets, Initial(c))
  {}
}
