/** How often one source can pass its rate checks, entries forgotten and made again or not (relay/limits.go). */
module Rates {
  import opened Results
  import opened Buckets
  import opened Limits
  import opened Admission
  import opened Forgetting

  /** A source has one bucket for links and one for setups. */
  datatype Kind = Links | Setups

  function Of(s: Source, k: Kind): Bucket {
    if k.Links? then s.links else s.setups
  }

  function Rate(c: Caps, k: Kind): real {
    if k.Links? then c.linkRate else c.setupRate
  }

  function Burst(c: Caps, k: Kind): real {
    if k.Links? then c.linkBurst else c.setupBurst
  }

  /** What a source could spend now; one without an entry would start full. */
  function Spendable(c: Caps, k: Kind, t: Table, a: Addr, now: real): real {
    if a in t.sources then Level(Of(t.sources[a], k), now) else Burst(c, k)
  }

  ghost predicate Good(c: Caps, k: Kind, s: Source, now: real) {
    Of(s, k).rate == Rate(c, k) && Of(s, k).burst == Burst(c, k) && Proper(Of(s, k), now)
  }

  ghost predicate Stocked(c: Caps, k: Kind, t: Table, now: real) {
    forall a :: a in t.sources ==> Good(c, k, t.sources[a], now)
  }

  /** Whether this event is one more pass of a's rate check. */
  function Passed(c: Caps, k: Kind, w: World, e: Event, a: Addr, now: real): bool {
    match e
    case Connect(_, src) =>
      k.Links? && src == a && !Admit(c, w.t, src, now).1.RefusedRate? && !Admit(c, w.t, src, now).1.RefusedTable?
    case SetupCell(conn) =>
      k.Setups? && conn in w.conns && w.conns[conn].src == a && AllowSetup(c, w.t, a, now).1
    case _ => false
  }

  function One(b: bool): nat {
    if b then 1 else 0
  }

  /** Passes among the events from the i-th on. */
  function Passes(c: Caps, k: Kind, events: seq<Timed>, i: nat, a: Addr): (n: nat)
    requires Run(c, events).Some? && i <= |events|
  {
    if i == |events| then 0
    else
      var init, e := events[..|events| - 1], events[|events| - 1];
      Passes(c, k, init, i, a) + One(Passed(c, k, Run(c, init).value, e.event, a, e.at))
  }

  // ------------------------------------------------------------- what time does

  lemma LevelLater(b: Bucket, now: real, later: real)
    requires Proper(b, now) && b.rate > 0.0 && now <= later
    ensures Level(b, later) <= Level(b, now) + (later - now) * b.rate
    ensures Proper(b, later)
  {
    GainAdds(b.last, now, later, b.rate);
    GainNonNegative(later - now, b.rate);
  }

  lemma SpendableLater(c: Caps, k: Kind, t: Table, a: Addr, now: real, later: real)
    requires Stocked(c, k, t, now) && Rate(c, k) > 0.0 && now <= later
    ensures Spendable(c, k, t, a, later) <= Spendable(c, k, t, a, now) + (later - now) * Rate(c, k)
    ensures Stocked(c, k, t, later)
  {
    GainNonNegative(later - now, Rate(c, k));
    forall b | b in t.sources ensures Good(c, k, t.sources[b], later) {
      LevelLater(Of(t.sources[b], k), now, later);
    }
    if a in t.sources {
      LevelLater(Of(t.sources[a], k), now, later);
    }
  }

  // ------------------------------------------------------------ what events do

  /** A bucket is spent exactly when it lets something pass, and looking spends nothing. */
  lemma TakeSpends(b: Bucket, now: real)
    requires Proper(b, now) && b.rate > 0.0
    ensures var (b', ok) := Take(b, now);
            && Proper(b', now) && b'.rate == b.rate && b'.burst == b.burst
            && Level(b', now) == Level(b, now) - (if ok then 1.0 else 0.0)
    ensures Proper(LookFull(b, now).0, now) && Level(LookFull(b, now).0, now) == Level(b, now)
    ensures Proper(Looked(b, now), now) && Level(Looked(b, now), now) == Level(b, now)
    ensures LookFull(b, now).1 ==> Level(b, now) == b.burst
  {
    RefillIsQuiet(b, now, now);
  }

  lemma SettleSpends(c: Caps, k: Kind, t: Table, src: Addr, now: real)
    requires src in t.sources && Good(c, k, t.sources[src], now) && Rate(c, k) > 0.0
    ensures var t' := Settle(t, src, now);
            && Spendable(c, k, t', src, now) == Spendable(c, k, t, src, now)
            && (src in t'.sources ==> Good(c, k, t'.sources[src], now))
  {
    var s := t.sources[src];
    SettleUnfolds(t, src, now);
    TakeSpends(Of(s, k), now);
    TakeSpends(LookFull(Of(s, k), now).0, now);
  }

  ghost predicate SpentAt(c: Caps, k: Kind, t: Table, t': Table, src: Addr, n: nat, now: real) {
    && OnlyAt(t, t', src) && Spendable(c, k, t', src, now) == Spendable(c, k, t, src, now) - n as real
    && (src in t'.sources ==> Good(c, k, t'.sources[src], now))
  }

  lemma Spent(c: Caps, k: Kind, t: Table, t': Table, src: Addr, n: nat, a: Addr, now: real)
    requires Stocked(c, k, t, now) && SpentAt(c, k, t, t', src, n, now)
    ensures Stocked(c, k, t', now)
    ensures Spendable(c, k, t', a, now) == Spendable(c, k, t, a, now) - (if a == src then n as real else 0.0)
  {
    forall b | b in t'.sources ensures Good(c, k, t'.sources[b], now) {
      if b != src {
        assert t'.sources[b] == t.sources[b] && b in t.sources;
      }
    }
  }

  lemma SettledToo(c: Caps, k: Kind, t: Table, m: Table, src: Addr, n: nat, now: real)
    requires src in m.sources && SpentAt(c, k, t, m, src, n, now) && Rate(c, k) > 0.0
    ensures SpentAt(c, k, t, Settle(m, src, now), src, n, now)
  {
    SettleSpends(c, k, m, src, now);
    SettleSettles(m, src, now);
    OnlyAtTwice(t, m, Settle(m, src, now), src);
  }

  lemma DrawnSpends(c: Caps, k: Kind, t: Table, src: Addr, now: real)
    requires Sane(c) && Stocked(c, k, t, now) && Rate(c, k) > 0.0
    ensures SpentAt(c, k, t, Drawn(c, t, src, now), src, One(k.Links? && Take(Entry(c, t, src, now).sources[src].links, now).1), now)
  {
    var s := Entry(c, t, src, now).sources[src];
    assert src in t.sources ==> Good(c, k, t.sources[src], now);
    assert Good(c, k, s, now);
    assert Level(Of(s, k), now) == Spendable(c, k, t, src, now);
    TakeSpends(Of(s, k), now);
  }

  lemma AdmitVerdict(c: Caps, t: Table, src: Addr, now: real)
    requires PerSourceOn(c) && (src in t.sources || |t.sources| < c.sourceCap)
    ensures Take(Entry(c, t, src, now).sources[src].links, now).1
            <==> !Admit(c, t, src, now).1.RefusedRate? && !Admit(c, t, src, now).1.RefusedTable?
  {}

  lemma ConnectSpends(c: Caps, k: Kind, w: World, conn: Conn, src: Addr, now: real)
    requires Sane(c) && Stocked(c, k, w.t, now) && Rate(c, k) > 0.0 && conn !in w.conns
    ensures SpentAt(c, k, w.t, Step(c, w, Connect(conn, src), now).t, src, One(Passed(c, k, w, Connect(conn, src), src, now)), now)
  {
    if src in w.t.sources || |w.t.sources| < c.sourceCap {
      var e, n := Drawn(c, w.t, src, now), One(Passed(c, k, w, Connect(conn, src), src, now));
      DrawnSpends(c, k, w.t, src, now);
      AdmitVerdict(c, w.t, src, now);
      AdmitUnfolds(c, w.t, src, now);
      if Admit(c, w.t, src, now).1.Admitted? {
        OnlyAtTwice(w.t, e, Entered(e, src), src);
      } else {
        SettledToo(c, k, w.t, e, src, n, now);
      }
    }
  }

  lemma SameStock(c: Caps, k: Kind, t: Table, m: Table, src: Addr, now: real)
    requires OnlyAt(t, m, src) && src in t.sources && src in m.sources && Stocked(c, k, t, now)
    requires Of(m.sources[src], k) == Of(t.sources[src], k)
    ensures SpentAt(c, k, t, m, src, 0, now)
  {}

  function OneFewer(t: Table, src: Addr): Table
    requires src in t.sources
  {
    Put(t.(inbound := t.inbound - 1), src, t.sources[src].(open := t.sources[src].open - 1))
  }

  lemma OneFewerStock(c: Caps, k: Kind, t: Table, src: Addr, now: real)
    requires src in t.sources && Stocked(c, k, t, now)
    ensures SpentAt(c, k, t, OneFewer(t, src), src, 0, now)
  {
    var m := OneFewer(t, src);
    assert m.sources[src].links == t.sources[src].links && m.sources[src].setups == t.sources[src].setups;
    SameStock(c, k, t, m, src, now);
  }

  lemma GoneSpends(c: Caps, k: Kind, t: Table, src: Addr, now: real)
    requires Stocked(c, k, t, now) && Rate(c, k) > 0.0
    ensures SpentAt(c, k, t, Leave(t, src, now), src, 0, now)
  {
    if src in t.sources {
      OneFewerStock(c, k, t, src, now);
      SettledToo(c, k, t, OneFewer(t, src), src, 0, now);
      assert Leave(t, src, now) == Settle(OneFewer(t, src), src, now);
    }
  }

  lemma TimerSpends(c: Caps, k: Kind, w: World, a: Addr, id: nat, now: real)
    requires Stocked(c, k, w.t, now) && Rate(c, k) > 0.0 && Possible(w, Timer(a, id))
    ensures SpentAt(c, k, w.t, Step(c, w, Timer(a, id), now).t, a, 0, now)
  {
    if a in w.t.sources && w.t.sources[a].id == id {
      var m := Put(w.t.(timers := w.t.timers - {(a, id)}), a, w.t.sources[a].(forgetting := false));
      SameStock(c, k, w.t, m, a, now);
      SettledToo(c, k, w.t, m, a, 0, now);
    }
  }

  lemma SetupSpends(c: Caps, k: Kind, w: World, conn: Conn, now: real)
    requires Books(c, w) && Stocked(c, k, w.t, now) && Rate(c, k) > 0.0 && Possible(w, SetupCell(conn))
    ensures var src := w.conns[conn].src;
            SpentAt(c, k, w.t, Step(c, w, SetupCell(conn), now).t, src, One(Passed(c, k, w, SetupCell(conn), src, now)), now)
  {
    HasEntry(c, w, conn);
    TakeSpends(Of(w.t.sources[w.conns[conn].src], k), now);
  }

  /** Each pass is paid for, and nothing else that happens fills a bucket. */
  lemma StepSpends(c: Caps, k: Kind, w: World, e: Event, a: Addr, now: real)
    requires Sane(c) && Books(c, w) && Stocked(c, k, w.t, now) && Rate(c, k) > 0.0 && Possible(w, e)
    ensures Stocked(c, k, Step(c, w, e, now).t, now)
    ensures Spendable(c, k, Step(c, w, e, now).t, a, now) + One(Passed(c, k, w, e, a, now)) as real == Spendable(c, k, w.t, a, now)
  {
    var t' := Step(c, w, e, now).t;
    match e
    case Connect(conn, src) =>
      ConnectSpends(c, k, w, conn, src, now);
      Spent(c, k, w.t, t', src, One(Passed(c, k, w, e, src, now)), a, now);
    case Shaken(conn) =>
      Spent(c, k, w.t, t', w.conns[conn].src, 0, a, now);
    case Gone(conn) =>
      GoneSpends(c, k, w.t, w.conns[conn].src, now);
      Spent(c, k, w.t, t', w.conns[conn].src, 0, a, now);
    case Timer(b, id) =>
      TimerSpends(c, k, w, b, id, now);
      Spent(c, k, w.t, t', b, 0, a, now);
    case SetupCell(conn) =>
      SetupSpends(c, k, w, conn, now);
      Spent(c, k, w.t, t', w.conns[conn].src, One(Passed(c, k, w, e, w.conns[conn].src, now)), a, now);
  }

  // ----------------------------------------------------------------- the window

  lemma {:induction false} StockedAlways(c: Caps, k: Kind, events: seq<Timed>)
    requires Sane(c) && Run(c, events).Some? && Clocked(events) && Rate(c, k) > 0.0
    ensures events != [] ==> Stocked(c, k, Run(c, events).value.t, events[|events| - 1].at)
    decreases |events|
  {
    if events != [] {
      var init, e := events[..|events| - 1], events[|events| - 1];
      StockedAlways(c, k, init);
      BooksAlways(c, init);
      if init != [] {
        SpendableLater(c, k, Run(c, init).value.t, 0, init[|init| - 1].at, e.at);
      }
      StepSpends(c, k, Run(c, init).value, e.event, 0, e.at);
    }
  }

  lemma SpendableWithin(c: Caps, k: Kind, t: Table, a: Addr, now: real)
    requires Sane(c) && Stocked(c, k, t, now) && Rate(c, k) > 0.0
    ensures 0.0 <= Spendable(c, k, t, a, now) <= Burst(c, k)
  {
    if a in t.sources {
      RefillIsQuiet(Of(t.sources[a], k), now, now);
    }
  }

  /** What a source gains while no event happens. */
  function Gain(c: Caps, k: Kind, from: real, to: real): real {
    (to - from) * Rate(c, k)
  }

  /** The account of one source: passes so far in the window, and what it has left. */
  ghost predicate Paid(c: Caps, k: Kind, passes: nat, left: real, from: real, to: real) {
    passes as real + left <= Burst(c, k) + Gain(c, k, from, to)
  }

  lemma PaidLater(c: Caps, k: Kind, passes: nat, left: real, left': real, from: real, to: real, later: real)
    requires Paid(c, k, passes, left, from, to) && left' <= left + (later - to) * Rate(c, k)
    ensures Paid(c, k, passes, left', from, later)
  {
    GainAdds(from, to, later, Rate(c, k));
  }

  /** One event with the time before it, when the window is open already and when it opens here. */
  lemma PassPaid(c: Caps, k: Kind, w: World, e: Event, a: Addr, passes: nat, from: real, before: real, now: real)
    requires Sane(c) && Rate(c, k) > 0.0 && Books(c, w) && Possible(w, e)
    requires Stocked(c, k, w.t, before) && before <= now
    requires Paid(c, k, passes, Spendable(c, k, w.t, a, before), from, before)
    ensures Paid(c, k, passes + One(Passed(c, k, w, e, a, now)), Spendable(c, k, Step(c, w, e, now).t, a, now), from, now)
  {
    SpendableLater(c, k, w.t, a, before, now);
    PaidLater(c, k, passes, Spendable(c, k, w.t, a, before), Spendable(c, k, w.t, a, now), from, before, now);
    StepSpends(c, k, w, e, a, now);
  }

  lemma OpensPaid(c: Caps, k: Kind, t: Table, a: Addr, now: real)
    requires Sane(c) && Rate(c, k) > 0.0 && Stocked(c, k, t, now)
    ensures Paid(c, k, 0, Spendable(c, k, t, a, now), now, now)
  {
    SpendableWithin(c, k, t, a, now);
  }

  lemma {:induction false} PassesPaid(c: Caps, k: Kind, events: seq<Timed>, i: nat, a: Addr)
    requires Sane(c) && Run(c, events).Some? && Clocked(events) && Rate(c, k) > 0.0 && i < |events|
    ensures Paid(c, k, Passes(c, k, events, i, a), Spendable(c, k, Run(c, events).value.t, a, events[|events| - 1].at),
                 events[i].at, events[|events| - 1].at)
    decreases |events|
  {
    var init, e := events[..|events| - 1], events[|events| - 1];
    var w := Run(c, init).value;
    BooksAlways(c, init);
    StockedAlways(c, k, init);
    if i == |init| {
      if init != [] {
        SpendableLater(c, k, w.t, a, init[|init| - 1].at, e.at);
      }
      OpensPaid(c, k, w.t, a, e.at);
      PassPaid(c, k, w, e.event, a, 0, e.at, e.at, e.at);
    } else {
      PassesPaid(c, k, init, i, a);
      PassPaid(c, k, w, e.event, a, Passes(c, k, init, i, a), events[i].at, init[|init| - 1].at, e.at);
    }
  }

  lemma PaidBounds(c: Caps, k: Kind, passes: nat, left: real, from: real, to: real)
    requires Paid(c, k, passes, left, from, to) && left >= 0.0
    ensures passes as real <= Burst(c, k) + Gain(c, k, from, to)
  {}

  /** In any window, from the i-th event to the last, a source passes at most burst + rate * length times. */
  lemma PassesBounded(c: Caps, k: Kind, events: seq<Timed>, i: nat, a: Addr)
    requires Sane(c) && Run(c, events).Some? && Clocked(events) && Rate(c, k) > 0.0 && i < |events|
    ensures Passes(c, k, events, i, a) as real <= Burst(c, k) + Gain(c, k, events[i].at, events[|events| - 1].at)
  {
    var t, from, to := Run(c, events).value.t, events[i].at, events[|events| - 1].at;
    PassesPaid(c, k, events, i, a);
    StockedAlways(c, k, events);
    SpendableWithin(c, k, t, a, to);
    PaidBounds(c, k, Passes(c, k, events, i, a), Spendable(c, k, t, a, to), from, to);
  }

  // ------------------------------------------------- and a rested source passes

  /** Whether this event is one of a's that its rate refuses. */
  predicate Refused(c: Caps, k: Kind, w: World, e: Event, a: Addr, now: real) {
    match e
    case Connect(_, src) => k.Links? && src == a && Admit(c, w.t, src, now).1.RefusedRate?
    case SetupCell(conn) => k.Setups? && conn in w.conns && w.conns[conn].src == a && !AllowSetup(c, w.t, a, now).1
    case _ => false
  }

  /** What is left, when nothing that came in was lost to the brim. */
  ghost predicate Exact(c: Caps, k: Kind, passes: nat, left: real, from: real, to: real) {
    passes as real + left == Burst(c, k) + Gain(c, k, from, to)
  }

  /** Later the bucket is at the brim, or has gained all that time brings. */
  lemma LevelGrows(b: Bucket, now: real, later: real)
    requires Proper(b, now) && b.rate > 0.0 && now <= later
    ensures Level(b, later) == b.burst || Level(b, later) == Level(b, now) + (later - now) * b.rate
  {
    GainAdds(b.last, now, later, b.rate);
    GainNonNegative(later - now, b.rate);
  }

  lemma SpendableGrows(c: Caps, k: Kind, t: Table, a: Addr, now: real, later: real)
    requires Stocked(c, k, t, now) && Rate(c, k) > 0.0 && now <= later
    ensures Spendable(c, k, t, a, later) == Burst(c, k)
            || Spendable(c, k, t, a, later) == Spendable(c, k, t, a, now) + (later - now) * Rate(c, k)
  {
    if a in t.sources {
      LevelGrows(Of(t.sources[a], k), now, later);
    }
  }

  lemma ExactLater(c: Caps, k: Kind, passes: nat, left: real, left': real, n: nat, from: real, to: real, later: real)
    requires Exact(c, k, passes, left, from, to) && left' + n as real == left + (later - to) * Rate(c, k)
    ensures Exact(c, k, passes + n, left', from, later)
  {
    GainAdds(from, to, later, Rate(c, k));
  }

  /** One event with the time before it: the account stays exact, or the bucket was at the brim when the event came. */
  lemma StepExact(c: Caps, k: Kind, w: World, e: Event, a: Addr, passes: nat, from: real, before: real, now: real)
    requires Sane(c) && Rate(c, k) > 0.0 && Books(c, w) && Possible(w, e)
    requires Stocked(c, k, w.t, before) && before <= now
    requires Exact(c, k, passes, Spendable(c, k, w.t, a, before), from, before)
    ensures Spendable(c, k, w.t, a, now) == Burst(c, k)
            || Exact(c, k, passes + One(Passed(c, k, w, e, a, now)), Spendable(c, k, Step(c, w, e, now).t, a, now), from, now)
  {
    SpendableLater(c, k, w.t, a, before, now);
    SpendableGrows(c, k, w.t, a, before, now);
    StepSpends(c, k, w, e, a, now);
    if Spendable(c, k, w.t, a, now) != Burst(c, k) {
      ExactLater(c, k, passes, Spendable(c, k, w.t, a, before), Spendable(c, k, Step(c, w, e, now).t, a, now),
                 One(Passed(c, k, w, e, a, now)), from, before, now);
    }
  }

  lemma BrimExact(c: Caps, k: Kind, w: World, e: Event, a: Addr, now: real)
    requires Sane(c) && Rate(c, k) > 0.0 && Books(c, w) && Possible(w, e) && Stocked(c, k, w.t, now)
    requires Spendable(c, k, w.t, a, now) == Burst(c, k)
    ensures Exact(c, k, One(Passed(c, k, w, e, a, now)), Spendable(c, k, Step(c, w, e, now).t, a, now), now, now)
  {
    StepSpends(c, k, w, e, a, now);
  }

  lemma NewcomerIsFull(c: Caps, k: Kind, a: Addr, now: real)
    ensures Stocked(c, k, EMPTY, now) && Spendable(c, k, EMPTY, a, now) == Burst(c, k)
  {}

  /** There is always a moment since when nothing was lost: what the source has left is burst and gain less its passes. */
  lemma {:induction false} SpentSince(c: Caps, k: Kind, events: seq<Timed>, a: Addr) returns (i: nat)
    requires Sane(c) && Run(c, events).Some? && Clocked(events) && Rate(c, k) > 0.0 && events != []
    ensures i < |events|
    ensures Exact(c, k, Passes(c, k, events, i, a), Spendable(c, k, Run(c, events).value.t, a, events[|events| - 1].at),
                  events[i].at, events[|events| - 1].at)
    decreases |events|
  {
    var init, e := events[..|events| - 1], events[|events| - 1];
    var w := Run(c, init).value;
    BooksAlways(c, init);
    if init == [] {
      NewcomerIsFull(c, k, a, e.at);
      BrimExact(c, k, w, e.event, a, e.at);
      i := 0;
    } else {
      var before := init[|init| - 1].at;
      StockedAlways(c, k, init);
      i := SpentSince(c, k, init, a);
      StepExact(c, k, w, e.event, a, Passes(c, k, init, i, a), events[i].at, before, e.at);
      if Spendable(c, k, w.t, a, e.at) == Burst(c, k) {
        SpendableLater(c, k, w.t, a, before, e.at);
        BrimExact(c, k, w, e.event, a, e.at);
        i := |init|;
      }
    }
  }

  lemma EntryLevel(c: Caps, t: Table, src: Addr, now: real)
    requires Stocked(c, Links, t, now) && c.linkRate > 0.0 && c.linkBurst >= 0.0
    ensures var b := Entry(c, t, src, now).sources[src].links;
            Proper(b, now) && b.rate > 0.0 && Level(b, now) == Spendable(c, Links, t, src, now)
  {
    assert src in t.sources ==> Good(c, Links, t.sources[src], now);
    assert c.linkBurst + (now - now) * c.linkRate == c.linkBurst;
  }

  lemma EmptyRefuses(b: Bucket, now: real)
    requires Proper(b, now) && b.rate > 0.0 && !Take(b, now).1
    ensures Level(b, now) < 1.0
  {}

  lemma RateVerdict(c: Caps, t: Table, src: Addr, now: real)
    requires Admit(c, t, src, now).1.RefusedRate?
    ensures !Take(Entry(c, t, src, now).sources[src].links, now).1
  {}

  /** Only a source with less than one token left is refused. */
  lemma RefusedIsSpent(c: Caps, k: Kind, w: World, e: Event, a: Addr, now: real)
    requires Sane(c) && Books(c, w) && Stocked(c, k, w.t, now) && Rate(c, k) > 0.0 && Possible(w, e)
    requires Refused(c, k, w, e, a, now)
    ensures !Passed(c, k, w, e, a, now) && Spendable(c, k, w.t, a, now) < 1.0
  {
    match e
    case Connect(_, src) =>
      EntryLevel(c, w.t, src, now);
      RateVerdict(c, w.t, src, now);
      EmptyRefuses(Entry(c, w.t, src, now).sources[src].links, now);
    case SetupCell(conn) =>
      assert Good(c, k, w.t.sources[a], now);
      EmptyRefuses(w.t.sources[a].setups, now);
  }

  /** The last of these events is refused to a for its rate. */
  ghost predicate EndsRefused(c: Caps, k: Kind, events: seq<Timed>, a: Addr)
    requires Run(c, events).Some?
  {
    events != [] && Refused(c, k, Run(c, events[..|events| - 1]).value, events[|events| - 1].event, a, events[|events| - 1].at)
  }

  // A rate of zero turns the check off.

  ghost predicate LinkRates(c: Caps, t: Table) {
    forall a :: a in t.sources ==> t.sources[a].links.rate == c.linkRate
  }

  lemma SettleRates(c: Caps, t: Table, src: Addr, now: real)
    requires src in t.sources && LinkRates(c, t)
    ensures LinkRates(c, Settle(t, src, now))
  {}

  lemma AdmitRates(c: Caps, t: Table, src: Addr, now: real)
    requires LinkRates(c, t)
    ensures LinkRates(c, Admit(c, t, src, now).0)
  {
    if PerSourceOn(c) && (src in t.sources || |t.sources| < c.sourceCap) {
      AdmitUnfolds(c, t, src, now);
      var e := Drawn(c, t, src, now);
      assert LinkRates(c, e);
      SettleRates(c, e, src, now);
    }
  }

  lemma {:induction false} RatesAlways(c: Caps, events: seq<Timed>)
    requires Run(c, events).Some?
    ensures LinkRates(c, Run(c, events).value.t)
    decreases |events|
  {
    if events != [] {
      var init, e := events[..|events| - 1], events[|events| - 1];
      RatesAlways(c, init);
      var t := Run(c, init).value.t;
      match e.event
      case Connect(_, src) => AdmitRates(c, t, src, e.at);
      case Shaken(_) =>
      case Gone(conn) =>
        var src := Run(c, init).value.conns[conn].src;
        if src in t.sources { SettleRates(c, OneFewer(t, src), src, e.at); }
      case Timer(a, id) =>
        if a in t.sources {
          SettleRates(c, Put(t.(timers := t.timers - {(a, id)}), a, t.sources[a].(forgetting := false)), a, e.at);
        }
      case SetupCell(_) =>
    }
  }

  /** A rate that is turned off refuses nobody. */
  lemma NoRateNoRefusal(c: Caps, k: Kind, events: seq<Timed>, a: Addr)
    requires Run(c, events).Some? && Rate(c, k) <= 0.0
    ensures !EndsRefused(c, k, events, a)
  {
    if events != [] {
      RatesAlways(c, events[..|events| - 1]);
    }
  }

  /** All that may pass from one moment to another has passed, but for less than one. */
  ghost predicate UsedUp(c: Caps, k: Kind, passes: nat, from: real, to: real) {
    passes as real > Burst(c, k) + (to - from) * Rate(c, k) - 1.0
  }

  lemma SpentIsUsed(c: Caps, k: Kind, passes: nat, left: real, from: real, to: real)
    requires Exact(c, k, passes, left, from, to) && left < 1.0
    ensures UsedUp(c, k, passes, from, to)
  {}

  lemma LeftWhenRefused(c: Caps, k: Kind, events: seq<Timed>, a: Addr)
    requires Sane(c) && Run(c, events).Some? && Clocked(events) && Rate(c, k) > 0.0 && EndsRefused(c, k, events, a)
    ensures Spendable(c, k, Run(c, events).value.t, a, events[|events| - 1].at) < 1.0
  {
    var init, e := events[..|events| - 1], events[|events| - 1];
    BooksAlways(c, init);
    StockedAlways(c, k, init);
    if init == [] {
      NewcomerIsFull(c, k, a, e.at);
    } else {
      SpendableLater(c, k, Run(c, init).value.t, a, init[|init| - 1].at, e.at);
    }
    StepSpends(c, k, Run(c, init).value, e.event, a, e.at);
    RefusedIsSpent(c, k, Run(c, init).value, e.event, a, e.at);
  }

  lemma RefusedSince(c: Caps, k: Kind, events: seq<Timed>, a: Addr) returns (i: nat)
    requires Sane(c) && Run(c, events).Some? && Clocked(events) && Rate(c, k) > 0.0 && EndsRefused(c, k, events, a)
    ensures i < |events| && UsedUp(c, k, Passes(c, k, events, i, a), events[i].at, events[|events| - 1].at)
  {
    i := SpentSince(c, k, events, a);
    LeftWhenRefused(c, k, events, a);
    SpentIsUsed(c, k, Passes(c, k, events, i, a), Spendable(c, k, Run(c, events).value.t, a, events[|events| - 1].at),
                events[i].at, events[|events| - 1].at);
  }

  /**
   The converse of the bound: a source is refused for its rate only if it really used
   its allowance. In some window up to the refusal it passed all of the burst and of
   the rate times the length, but for less than one pass.
   */
  lemma RefusedHasUsed(c: Caps, k: Kind, events: seq<Timed>, a: Addr)
    requires Sane(c) && Run(c, events).Some? && Clocked(events) && Rate(c, k) > 0.0 && EndsRefused(c, k, events, a)
    ensures exists i: nat :: i < |events| && UsedUp(c, k, Passes(c, k, events, i, a), events[i].at, events[|events| - 1].at)
  {
    var i := RefusedSince(c, k, events, a);
  }

  lemma {:induction false} PassesAdd(c: Caps, k: Kind, events: seq<Timed>, i: nat, q: nat, a: Addr)
    requires Run(c, events).Some? && i <= q <= |events| && Run(c, events[..q]).Some?
    ensures Passes(c, k, events, i, a) == Passes(c, k, events[..q], i, a) + Passes(c, k, events, q, a)
    decreases |events|
  {
    if q == |events| {
      assert events[..q] == events;
    } else {
      var init := events[..|events| - 1];
      assert init[..q] == events[..q];
      PassesAdd(c, k, init, i, q, a);
    }
  }

  lemma {:induction false} RunStarts(c: Caps, events: seq<Timed>, q: nat)
    requires Run(c, events).Some? && q <= |events|
    ensures Run(c, events[..q]).Some?
    decreases |events|
  {
    if q == |events| {
      assert events[..q] == events;
    } else {
      assert events[..|events| - 1][..q] == events[..q];
      RunStarts(c, events[..|events| - 1], q);
    }
  }

  lemma {:induction false} ClockedBetween(events: seq<Timed>, i: nat, j: nat)
    requires Clocked(events) && i <= j < |events|
    ensures events[i].at <= events[j].at
    decreases j
  {
    if i < j {
      ClockedBetween(events, i, j - 1);
    }
  }

  /** No more than these passes in d seconds leaves room for another. */
  ghost predicate Rested(c: Caps, k: Kind, passes: nat, d: real) {
    passes as real + 1.0 <= Burst(c, k) && passes as real + 1.0 <= d * Rate(c, k)
  }

  ghost predicate Bounded(c: Caps, k: Kind, passes: nat, from: real, to: real) {
    passes as real <= Burst(c, k) + Gain(c, k, from, to)
  }

  lemma RestedNotUsed(c: Caps, k: Kind, all: nat, before: nat, rest: nat, from: real, quiet: real, to: real, d: real)
    requires Rate(c, k) > 0.0 && all <= before + rest && quiet + d <= to && Bounded(c, k, before, from, quiet) && Rested(c, k, rest, d)
    ensures !UsedUp(c, k, all, from, to)
  {
    GainAdds(from, quiet, to, Rate(c, k));
    GainAdds(0.0, d, to - quiet, Rate(c, k));
    GainNonNegative(to - quiet - d, Rate(c, k));
  }

  lemma YoungNotUsed(c: Caps, k: Kind, passes: nat, from: real, to: real, d: real)
    requires Rate(c, k) > 0.0 && from <= to && Rested(c, k, passes, d)
    ensures forall n: nat :: n <= passes ==> !UsedUp(c, k, n, from, to)
  {
    GainNonNegative(to - from, Rate(c, k));
  }

  /** The window of a refusal, split where the last d seconds begin. */
  lemma WindowSplit(c: Caps, k: Kind, events: seq<Timed>, i: nat, q: nat, a: Addr)
    requires Sane(c) && Run(c, events).Some? && Clocked(events) && Rate(c, k) > 0.0 && i < |events| && q <= |events|
    ensures q <= i ==> Passes(c, k, events, i, a) <= Passes(c, k, events, q, a)
    ensures i < q ==>
              var before := Passes(c, k, events, i, a) - Passes(c, k, events, q, a);
              before >= 0 && Bounded(c, k, before, events[i].at, events[q - 1].at)
  {
    RunStarts(c, events, if i < q then q else i);
    if i < q {
      PassesAdd(c, k, events, i, q, a);
      PassesBounded(c, k, events[..q], i, a);
      assert Bounded(c, k, Passes(c, k, events[..q], i, a), events[i].at, events[q - 1].at);
    } else {
      PassesAdd(c, k, events, q, i, a);
    }
  }

  /**
   Refilling, over every stretch of time that ends here: whatever a source used
   before, it is not refused while it passed at most min(burst, rate * d) - 1 times
   in the last d seconds. So after d quiet seconds it passes min(burst, rate * d)
   times, rounded down, even all at once.
   */
  lemma RestedPasses(c: Caps, k: Kind, events: seq<Timed>, q: nat, d: real, a: Addr)
    requires Sane(c) && Run(c, events).Some? && Clocked(events) && Rate(c, k) > 0.0 && events != [] && q <= |events|
    // everything before the q-th event is at least d seconds old
    requires d >= 0.0 && forall j :: 0 <= j < q ==> events[j].at + d <= events[|events| - 1].at
    requires Rested(c, k, Passes(c, k, events, q, a), d)
    ensures !EndsRefused(c, k, events, a)
  {
    if EndsRefused(c, k, events, a) {
      var to := events[|events| - 1].at;
      var i := RefusedSince(c, k, events, a);
      ClockedBetween(events, i, |events| - 1);
      WindowSplit(c, k, events, i, q, a);
      if i < q {
        var all, rest := Passes(c, k, events, i, a), Passes(c, k, events, q, a);
        RestedNotUsed(c, k, all, all - rest, rest, events[i].at, events[q - 1].at, to, d);
      } else {
        YoungNotUsed(c, k, Passes(c, k, events, q, a), events[i].at, to, d);
      }
    }
  }
}
