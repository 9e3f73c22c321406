/** What every interleaving of connections, handshakes, departures and timers keeps (relay/limits.go, relay/relay.go). */
module Admission {
  import opened Results
  import opened Buckets
  import opened Limits

  type Conn = nat

  /** An admitted connection: where it came from and whether its handshake is still running. */
  datatype Link = Link(src: Addr, shaking: bool)

  datatype World = World(t: Table, conns: map<Conn, Link>)

  datatype Event =
    | Connect(conn: Conn, src: Addr)
    | Shaken(conn: Conn)
    | Gone(conn: Conn)
    | Timer(addr: Addr, id: nat)
    | SetupCell(conn: Conn)

  /** A handler ends its handshake once and leaves after it; a timer fires while it is running. */
  predicate Possible(w: World, e: Event) {
    match e
    case Connect(conn, _) => conn !in w.conns
    case Shaken(conn) => conn in w.conns && w.conns[conn].shaking
    case Gone(conn) => conn in w.conns && !w.conns[conn].shaking
    case Timer(a, id) => (a, id) in w.t.timers
    case SetupCell(conn) => conn in w.conns && !w.conns[conn].shaking
  }

  function Step(c: Caps, w: World, e: Event, now: real): World
    requires Possible(w, e)
  {
    match e
    case Connect(conn, src) =>
      var (t, v) := Admit(c, w.t, src, now);
      World(t, if v.Admitted? then w.conns[conn := Link(src, true)] else w.conns)
    case Shaken(conn) =>
      World(HandshakeDone(w.t, w.conns[conn].src), w.conns[conn := Link(w.conns[conn].src, false)])
    case Gone(conn) => World(Leave(w.t, w.conns[conn].src, now), w.conns - {conn})
    case Timer(a, id) => World(Fire(w.t, a, id, now), w.conns)
    case SetupCell(conn) => World(AllowSetup(c, w.t, w.conns[conn].src, now).0, w.conns)
  }

  // --------------------------------------------------------------- the counts

  function From(conns: map<Conn, Link>, src: Addr): set<Conn> {
    set c | c in conns && conns[c].src == src
  }

  function ShakingFrom(conns: map<Conn, Link>, src: Addr): set<Conn> {
    set c | c in conns && conns[c].src == src && conns[c].shaking
  }

  function Shaking(conns: map<Conn, Link>): set<Conn> {
    set c | c in conns && conns[c].shaking
  }

  function Opens(m: map<Addr, Source>): map<Addr, int> {
    map a | a in m :: m[a].open
  }

  function Shakes(m: map<Addr, Source>): map<Addr, int> {
    map a | a in m :: m[a].handshaking
  }

  /** The sum over a table, in any order. */
  ghost function Sum(m: map<Addr, int>): int {
    if m == map[] then 0 else var a :| a in m; m[a] + Sum(m - {a})
  }

  lemma {:induction false} SumRemove(m: map<Addr, int>, a: Addr)
    requires a in m
    ensures Sum(m) == m[a] + Sum(m - {a})
    decreases |m|
  {
    var b :| b in m && Sum(m) == m[b] + Sum(m - {b});
    if a != b {
      SumRemove(m - {b}, a);
      SumRemove(m - {a}, b);
      assert m - {a} - {b} == m - {b} - {a};
    }
  }

  // ----------------------------------------------------------- the invariants

  /** An entry counts its source's links and keeps the source's own caps. */
  ghost predicate Counted(c: Caps, t: Table, conns: map<Conn, Link>, a: Addr)
    requires a in t.sources
  {
    var s := t.sources[a];
    && s.open == |From(conns, a)| && s.handshaking == |ShakingFrom(conns, a)|
    && (s.forgetting <==> (a, s.id) in t.timers)
    && (c.perSource > 0 ==> s.open <= c.perSource)
    && (c.sourceHandshakes > 0 ==> s.handshaking <= c.sourceHandshakes)
    && (forall id :: (a, id) in t.timers ==> id == s.id)
  }

  ghost predicate Absent(t: Table, conns: map<Conn, Link>, a: Addr) {
    && From(conns, a) == {} && forall id :: (a, id) !in t.timers
  }

  /** What the table says of one address: its counts, or nothing at all; an entry has a link or a timer. */
  ghost predicate Local(c: Caps, t: Table, conns: map<Conn, Link>, a: Addr) {
    if a in t.sources then Counted(c, t, conns, a) && (t.sources[a].open > 0 || t.sources[a].forgetting)
    else Absent(t, conns, a)
  }

  ghost predicate Shared(c: Caps, t: Table, conns: map<Conn, Link>) {
    && t.inbound == |conns| && t.handshaking == |Shaking(conns)|
    && (c.links > 0 ==> t.inbound <= c.links)
    && (c.handshakes > 0 ==> t.handshaking <= c.handshakes)
  }

  ghost predicate Sums(t: Table) {
    Sum(Opens(t.sources)) == t.inbound && Sum(Shakes(t.sources)) == t.handshaking
  }

  ghost predicate Books(c: Caps, w: World) {
    && Shared(c, w.t, w.conns)
    && if PerSourceOn(c) then Sums(w.t) && forall a :: Local(c, w.t, w.conns, a)
       else w.t.sources == map[] && w.t.timers == {}
  }

  lemma ShakingWithin(conns: map<Conn, Link>, a: Addr)
    ensures |ShakingFrom(conns, a)| <= |From(conns, a)|
  {
    SubsetSize(ShakingFrom(conns, a), From(conns, a));
  }

  lemma {:induction false} SubsetSize(x: set<Conn>, y: set<Conn>)
    requires x <= y
    ensures |x| <= |y|
  {
    if x != {} {
      var e :| e in x;
      SubsetSize(x - {e}, y - {e});
    }
  }

  // ------------------------------------------------- changes at a single source

  ghost predicate OnlyAt(t: Table, t': Table, src: Addr) {
    && (forall a :: a != src ==> (a in t.sources <==> a in t'.sources))
    && (forall a :: a != src && a in t.sources ==> t'.sources[a] == t.sources[a])
    && (forall a, id :: a != src ==> ((a, id) in t.timers <==> (a, id) in t'.timers))
  }

  ghost predicate LinksOnlyAt(conns: map<Conn, Link>, conns': map<Conn, Link>, src: Addr) {
    forall a :: a != src ==> From(conns, a) == From(conns', a) && ShakingFrom(conns, a) == ShakingFrom(conns', a)
  }

  lemma LocalElsewhere(c: Caps, t: Table, t': Table, conns: map<Conn, Link>, conns': map<Conn, Link>, src: Addr, a: Addr)
    requires OnlyAt(t, t', src) && LinksOnlyAt(conns, conns', src) && a != src
    requires Local(c, t, conns, a)
    ensures Local(c, t', conns', a)
  {}

  function OpenAt(t: Table, a: Addr): int {
    if a in t.sources then t.sources[a].open else 0
  }

  function ShakingAt(t: Table, a: Addr): int {
    if a in t.sources then t.sources[a].handshaking else 0
  }

  lemma SumElsewhere(m: map<Addr, int>, m': map<Addr, int>, src: Addr)
    requires m - {src} == m' - {src}
    ensures Sum(m') - Sum(m) == (if src in m' then m'[src] else 0) - (if src in m then m[src] else 0)
  {
    if src in m { SumRemove(m, src); } else { assert m - {src} == m; }
    if src in m' { SumRemove(m', src); } else { assert m' - {src} == m'; }
  }

  lemma SumsMove(t: Table, t': Table, src: Addr)
    requires OnlyAt(t, t', src) && Sums(t)
    requires t'.inbound - t.inbound == OpenAt(t', src) - OpenAt(t, src)
    requires t'.handshaking - t.handshaking == ShakingAt(t', src) - ShakingAt(t, src)
    ensures Sums(t')
  {
    var o, o', h, h' := Opens(t.sources), Opens(t'.sources), Shakes(t.sources), Shakes(t'.sources);
    assert o - {src} == o' - {src};
    assert h - {src} == h' - {src};
    SumElsewhere(o, o', src);
    SumElsewhere(h, h', src);
  }

  lemma Moved(c: Caps, w: World, w': World, src: Addr)
    requires Books(c, w) && PerSourceOn(c)
    requires OnlyAt(w.t, w'.t, src) && LinksOnlyAt(w.conns, w'.conns, src)
    requires w'.t.inbound - w.t.inbound == OpenAt(w'.t, src) - OpenAt(w.t, src)
    requires w'.t.handshaking - w.t.handshaking == ShakingAt(w'.t, src) - ShakingAt(w.t, src)
    requires Shared(c, w'.t, w'.conns) && Local(c, w'.t, w'.conns, src)
    ensures Books(c, w')
  {
    SumsMove(w.t, w'.t, src);
    forall a ensures Local(c, w'.t, w'.conns, a) {
      if a != src {
        LocalElsewhere(c, w.t, w'.t, w.conns, w'.conns, src, a);
      }
    }
  }

  // ------------------------------------------------------------------ settling

  /** Settling touches one source, keeps its counts, and leaves it with a link, a timer or no entry. */
  ghost predicate Settles(t: Table, t': Table, src: Addr)
    requires src in t.sources
  {
    && OnlyAt(t, t', src) && t'.inbound == t.inbound && t'.handshaking == t.handshaking
    && (var s := t.sources[src];
        if src in t'.sources then
          && var s' := t'.sources[src];
          && s'.open == s.open && s'.handshaking == s.handshaking && s'.id == s.id
          && (s'.open > 0 || s'.forgetting) && (s.forgetting ==> s'.forgetting)
          && t'.timers == if s'.forgetting && !s.forgetting then t.timers + {(src, s.id)} else t.timers
        else s.open <= 0 && !s.forgetting && t'.timers == t.timers)
  }

  lemma SettleSettles(t: Table, src: Addr, now: real)
    requires src in t.sources
    ensures Settles(t, Settle(t, src, now), src)
  {}

  lemma SettledLocal(c: Caps, t: Table, t': Table, conns: map<Conn, Link>, src: Addr)
    requires src in t.sources && Settles(t, t', src) && Counted(c, t, conns, src)
    ensures Local(c, t', conns, src)
    ensures OpenAt(t', src) == OpenAt(t, src) && ShakingAt(t', src) == ShakingAt(t, src)
  {
    ShakingWithin(conns, src);
  }

  lemma OnlyAtTwice(t: Table, m: Table, t': Table, src: Addr)
    requires OnlyAt(t, m, src) && OnlyAt(m, t', src)
    ensures OnlyAt(t, t', src)
  {}

  /** A change at one source that counts right, then settled, keeps the books. */
  lemma MovedAndSettled(c: Caps, w: World, m: World, src: Addr, now: real)
    requires Books(c, w) && PerSourceOn(c) && src in m.t.sources
    requires OnlyAt(w.t, m.t, src) && LinksOnlyAt(w.conns, m.conns, src)
    requires m.t.inbound - w.t.inbound == OpenAt(m.t, src) - OpenAt(w.t, src)
    requires m.t.handshaking - w.t.handshaking == ShakingAt(m.t, src) - ShakingAt(w.t, src)
    requires Shared(c, m.t, m.conns) && Counted(c, m.t, m.conns, src)
    ensures Books(c, World(Settle(m.t, src, now), m.conns))
  {
    var t' := Settle(m.t, src, now);
    SettleSettles(m.t, src, now);
    SettledLocal(c, m.t, t', m.conns, src);
    OnlyAtTwice(w.t, m.t, t', src);
    Moved(c, w, World(t', m.conns), src);
  }

  // ------------------------------------------------------------ the five events

  /** The entry admit found or made, with its bucket drawn from. */
  function Drawn(c: Caps, t: Table, src: Addr, now: real): (e: Table)
    ensures src in e.sources
  {
    var e := Entry(c, t, src, now);
    Put(e, src, e.sources[src].(links := Take(e.sources[src].links, now).0))
  }

  lemma DrawnCounts(c: Caps, t: Table, conns: map<Conn, Link>, src: Addr, now: real)
    requires Local(c, t, conns, src)
    ensures var e := Drawn(c, t, src, now);
            && OnlyAt(t, e, src) && Counted(c, e, conns, src)
            && OpenAt(e, src) == OpenAt(t, src) && ShakingAt(e, src) == ShakingAt(t, src)
            && e.inbound == t.inbound && e.handshaking == t.handshaking && e.timers == t.timers
  {
    ShakingWithin(conns, src);
  }

  predicate WithinCaps(c: Caps, t: Table, s: Source) {
    Capped(c, Counts(t.inbound, t.handshaking), Some(Counts(s.open, s.handshaking))).Admitted?
  }

  lemma AdmitUnfolds(c: Caps, t: Table, src: Addr, now: real)
    requires PerSourceOn(c) && (src in t.sources || |t.sources| < c.sourceCap)
    ensures var e, (t', v) := Drawn(c, t, src, now), Admit(c, t, src, now);
            if v.Admitted? then
              && WithinCaps(c, t, e.sources[src])
              && t' == Entered(e, src)
            else t' == Settle(e, src, now)
  {}

  function Entered(t: Table, src: Addr): (t': Table)
    requires src in t.sources
    ensures OnlyAt(t, t', src)
  {
    var s := t.sources[src];
    Put(t, src, s.(open := s.open + 1, handshaking := s.handshaking + 1))
    .(inbound := t.inbound + 1, handshaking := t.handshaking + 1)
  }

  lemma JoinSets(conns: map<Conn, Link>, conn: Conn, src: Addr)
    requires conn !in conns
    ensures var conns' := conns[conn := Link(src, true)];
            && conns'.Keys == conns.Keys + {conn} && Shaking(conns') == Shaking(conns) + {conn}
            && From(conns', src) == From(conns, src) + {conn}
            && ShakingFrom(conns', src) == ShakingFrom(conns, src) + {conn}
  {}

  lemma OneMore(x: set<Conn>, y: set<Conn>, e: Conn)
    requires e !in x && y == x + {e}
    ensures |y| == |x| + 1
  {}

  lemma JoinLinks(conns: map<Conn, Link>, conn: Conn, src: Addr)
    requires conn !in conns
    ensures var conns' := conns[conn := Link(src, true)];
            && |conns'.Keys| == |conns.Keys| + 1
            && |Shaking(conns')| == |Shaking(conns)| + 1
            && |From(conns', src)| == |From(conns, src)| + 1
            && |ShakingFrom(conns', src)| == |ShakingFrom(conns, src)| + 1
  {
    var conns' := conns[conn := Link(src, true)];
    JoinSets(conns, conn, src);
    OneMore(conns.Keys, conns'.Keys, conn);
    OneMore(Shaking(conns), Shaking(conns'), conn);
    OneMore(From(conns, src), From(conns', src), conn);
    OneMore(ShakingFrom(conns, src), ShakingFrom(conns', src), conn);
  }

  lemma JoinOnlyAt(conns: map<Conn, Link>, conn: Conn, src: Addr)
    requires conn !in conns
    ensures LinksOnlyAt(conns, conns[conn := Link(src, true)], src)
  {
    var conns' := conns[conn := Link(src, true)];
    forall a | a != src ensures From(conns, a) == From(conns', a) && ShakingFrom(conns, a) == ShakingFrom(conns', a) {
      JoinElsewhere(conns, conn, src, a);
    }
  }

  lemma JoinElsewhere(conns: map<Conn, Link>, conn: Conn, src: Addr, a: Addr)
    requires conn !in conns && a != src
    ensures var conns' := conns[conn := Link(src, true)];
            From(conns, a) == From(conns', a) && ShakingFrom(conns, a) == ShakingFrom(conns', a)
  {}

  lemma JoinedLocal(c: Caps, e: Table, conns: map<Conn, Link>, conns': map<Conn, Link>, src: Addr)
    requires src in e.sources && Counted(c, e, conns, src)
    requires WithinCaps(c, e, e.sources[src])
    requires |From(conns', src)| == |From(conns, src)| + 1
    requires |ShakingFrom(conns', src)| == |ShakingFrom(conns, src)| + 1
    ensures Local(c, Entered(e, src), conns', src)
  {}

  lemma ConnectKeeps(c: Caps, w: World, conn: Conn, src: Addr, now: real)
    requires Books(c, w) && conn !in w.conns
    ensures Books(c, Step(c, w, Connect(conn, src), now))
  {
    JoinLinks(w.conns, conn, src);
    if PerSourceOn(c) && (src in w.t.sources || |w.t.sources| < c.sourceCap) {
      var e, v := Drawn(c, w.t, src, now), Admit(c, w.t, src, now).1;
      assert Local(c, w.t, w.conns, src);
      DrawnCounts(c, w.t, w.conns, src, now);
      AdmitUnfolds(c, w.t, src, now);
      if v.Admitted? {
        Enters(c, w, e, conn, src);
      } else {
        MovedAndSettled(c, w, World(e, w.conns), src, now);
      }
    }
  }

  lemma Enters(c: Caps, w: World, e: Table, conn: Conn, src: Addr)
    requires Books(c, w) && PerSourceOn(c) && conn !in w.conns && src in e.sources
    requires OnlyAt(w.t, e, src) && Counted(c, e, w.conns, src)
    requires OpenAt(e, src) == OpenAt(w.t, src) && ShakingAt(e, src) == ShakingAt(w.t, src)
    requires e.inbound == w.t.inbound && e.handshaking == w.t.handshaking
    requires WithinCaps(c, e, e.sources[src])
    ensures Books(c, World(Entered(e, src), w.conns[conn := Link(src, true)]))
  {
    var conns' := w.conns[conn := Link(src, true)];
    JoinLinks(w.conns, conn, src);
    JoinOnlyAt(w.conns, conn, src);
    JoinedLocal(c, e, w.conns, conns', src);
    OnlyAtTwice(w.t, e, Entered(e, src), src);
    Moved(c, w, World(Entered(e, src), conns'), src);
  }

  lemma ShakenLinks(conns: map<Conn, Link>, conn: Conn)
    requires conn in conns && conns[conn].shaking
    ensures var src := conns[conn].src; var conns' := conns[conn := Link(src, false)];
            && LinksOnlyAt(conns, conns', src) && |conns'| == |conns|
            && |Shaking(conns')| == |Shaking(conns)| - 1
            && From(conns', src) == From(conns, src) && |From(conns, src)| > 0
            && |ShakingFrom(conns', src)| == |ShakingFrom(conns, src)| - 1
  {
    var src := conns[conn].src;
    var conns' := conns[conn := Link(src, false)];
    assert conns'.Keys == conns.Keys;
    assert conn in Shaking(conns) && conn in ShakingFrom(conns, src) && conn in From(conns, src);
    assert Shaking(conns') == Shaking(conns) - {conn};
    assert ShakingFrom(conns', src) == ShakingFrom(conns, src) - {conn};
    assert From(conns', src) == From(conns, src);
  }

  lemma ShakenKeeps(c: Caps, w: World, conn: Conn, now: real)
    requires Books(c, w) && Possible(w, Shaken(conn))
    ensures Books(c, Step(c, w, Shaken(conn), now))
  {
    ShakenLinks(w.conns, conn);
    if PerSourceOn(c) {
      var src := w.conns[conn].src;
      assert Local(c, w.t, w.conns, src);
      Moved(c, w, Step(c, w, Shaken(conn), now), src);
    }
  }

  lemma GoneLinks(conns: map<Conn, Link>, conn: Conn)
    requires conn in conns && !conns[conn].shaking
    ensures var src, conns' := conns[conn].src, conns - {conn};
            && LinksOnlyAt(conns, conns', src) && |conns'| == |conns| - 1
            && Shaking(conns') == Shaking(conns)
            && |From(conns', src)| == |From(conns, src)| - 1
            && ShakingFrom(conns', src) == ShakingFrom(conns, src)
  {
    var src, conns' := conns[conn].src, conns - {conn};
    assert conns'.Keys == conns.Keys - {conn};
    assert conn in From(conns, src);
    assert From(conns', src) == From(conns, src) - {conn};
    assert Shaking(conns') == Shaking(conns);
  }

  lemma GoneKeeps(c: Caps, w: World, conn: Conn, now: real)
    requires Books(c, w) && Possible(w, Gone(conn))
    ensures Books(c, Step(c, w, Gone(conn), now))
  {
    GoneLinks(w.conns, conn);
    if PerSourceOn(c) {
      var src := w.conns[conn].src;
      assert Local(c, w.t, w.conns, src);
      assert src in w.t.sources by { assert conn in From(w.conns, src); }
      var s := w.t.sources[src];
      var m := Put(w.t.(inbound := w.t.inbound - 1), src, s.(open := s.open - 1));
      MovedAndSettled(c, w, World(m, w.conns - {conn}), src, now);
    }
  }

  /** The test that a timer's entry is still the one in the table never fails. */
  lemma TimerKeeps(c: Caps, w: World, a: Addr, id: nat, now: real)
    requires Books(c, w) && Possible(w, Timer(a, id))
    ensures a in w.t.sources && w.t.sources[a].id == id
    ensures Books(c, Step(c, w, Timer(a, id), now))
  {
    assert Local(c, w.t, w.conns, a);
    var m := Put(w.t.(timers := w.t.timers - {(a, id)}), a, w.t.sources[a].(forgetting := false));
    MovedAndSettled(c, w, World(m, w.conns), a, now);
  }

  lemma SetupKeeps(c: Caps, w: World, conn: Conn, now: real)
    requires Books(c, w) && Possible(w, SetupCell(conn))
    ensures Books(c, Step(c, w, SetupCell(conn), now))
  {
    if PerSourceOn(c) {
      var src := w.conns[conn].src;
      assert Local(c, w.t, w.conns, src);
      Moved(c, w, Step(c, w, SetupCell(conn), now), src);
    }
  }

  /** The table never outgrows its own cap: only admit adds an entry, and it looks first. */
  lemma SettleNoLarger(t: Table, src: Addr, now: real)
    requires src in t.sources
    ensures |Settle(t, src, now).sources| <= |t.sources|
  {
    var t' := Settle(t, src, now);
    assert t'.sources.Keys == t.sources.Keys || t'.sources.Keys == t.sources.Keys - {src};
  }

  lemma RoomAfterConnect(c: Caps, t: Table, src: Addr, now: real)
    requires |t.sources| <= c.sourceCap
    ensures |Admit(c, t, src, now).0.sources| <= c.sourceCap
  {
    if PerSourceOn(c) && (src in t.sources || |t.sources| < c.sourceCap) {
      var d := Drawn(c, t, src, now);
      assert d.sources.Keys == t.sources.Keys + {src};
      AdmitUnfolds(c, t, src, now);
      SettleNoLarger(d, src, now);
      assert Entered(d, src).sources.Keys == d.sources.Keys;
    }
  }

  lemma RoomAfterLeave(t: Table, src: Addr, now: real)
    ensures |Leave(t, src, now).sources| <= |t.sources|
  {
    if src in t.sources {
      var m := Put(t.(inbound := t.inbound - 1), src, t.sources[src].(open := t.sources[src].open - 1));
      assert m.sources.Keys == t.sources.Keys;
      SettleNoLarger(m, src, now);
    }
  }

  lemma RoomAfterTimer(t: Table, a: Addr, id: nat, now: real)
    ensures |Fire(t, a, id, now).sources| <= |t.sources|
  {
    if a in t.sources && t.sources[a].id == id {
      var m := Put(t.(timers := t.timers - {(a, id)}), a, t.sources[a].(forgetting := false));
      assert m.sources.Keys == t.sources.Keys;
      SettleNoLarger(m, a, now);
    }
  }

  lemma RoomAfterRest(c: Caps, t: Table, src: Addr, now: real)
    ensures |HandshakeDone(t, src).sources| == |t.sources| && |AllowSetup(c, t, src, now).0.sources| == |t.sources|
  {
    assert HandshakeDone(t, src).sources.Keys == t.sources.Keys;
    assert AllowSetup(c, t, src, now).0.sources.Keys == t.sources.Keys;
  }

  lemma RoomKept(c: Caps, w: World, e: Event, now: real)
    requires Possible(w, e) && |w.t.sources| <= c.sourceCap
    ensures |Step(c, w, e, now).t.sources| <= c.sourceCap
  {
    match e
    case Connect(_, src) => RoomAfterConnect(c, w.t, src, now);
    case Shaken(conn) => RoomAfterRest(c, w.t, w.conns[conn].src, now);
    case Gone(conn) => RoomAfterLeave(w.t, w.conns[conn].src, now);
    case Timer(a, id) => RoomAfterTimer(w.t, a, id, now);
    case SetupCell(conn) => RoomAfterRest(c, w.t, w.conns[conn].src, now);
  }

  lemma StepKeeps(c: Caps, w: World, e: Event, now: real)
    requires Books(c, w) && Possible(w, e)
    ensures Books(c, Step(c, w, e, now))
  {
    match e
    case Connect(conn, src) => ConnectKeeps(c, w, conn, src, now);
    case Shaken(conn) => ShakenKeeps(c, w, conn, now);
    case Gone(conn) => GoneKeeps(c, w, conn, now);
    case Timer(a, id) => TimerKeeps(c, w, a, id, now);
    case SetupCell(conn) => SetupKeeps(c, w, conn, now);
  }

  datatype Timed = Timed(event: Event, at: real)

  /** The world after these events, or None where one could not have happened. */
  function Run(c: Caps, events: seq<Timed>): Option<World> {
    if events == [] then Some(World(EMPTY, map[]))
    else match Run(c, events[..|events| - 1])
      case None => None
      case Some(w) =>
        var e := events[|events| - 1];
        if Possible(w, e.event) then Some(Step(c, w, e.event, e.at)) else None
  }

  /**
   Every interleaving keeps the books: the shared counts are the sums over the
   table and the links that are really open, handshakes never outnumber links, no
   cap is exceeded, no source with open links is dropped, and every source in the
   table has a link or a timer.
   */
  lemma {:induction false} BooksAlways(c: Caps, events: seq<Timed>)
    requires Run(c, events).Some?
    ensures Books(c, Run(c, events).value) && |Run(c, events).value.t.sources| <= c.sourceCap
    ensures forall a :: a in Run(c, events).value.t.sources ==>
              Run(c, events).value.t.sources[a].handshaking <= Run(c, events).value.t.sources[a].open
    decreases |events|
  {
    if events == [] {
      NothingYet(c);
    } else {
      var init, e := events[..|events| - 1], events[|events| - 1];
      BooksAlways(c, init);
      StepKeeps(c, Run(c, init).value, e.event, e.at);
      RoomKept(c, Run(c, init).value, e.event, e.at);
    }
    var w := Run(c, events).value;
    forall a | a in w.t.sources ensures w.t.sources[a].handshaking <= w.t.sources[a].open {
      assert Local(c, w.t, w.conns, a);
      ShakingWithin(w.conns, a);
    }
  }

  /** A bucket that is full by now, or of a rate that is turned off. */
  predicate Brimful(b: Bucket, now: real) {
    b.rate <= 0.0 || b.tokens + (now - b.last) * b.rate >= b.burst
  }

  /**
   A timer that fires forgets its source exactly when the source has no link open and
   both its buckets are full. A source that stays without a link keeps a timer, so
   it is looked at again.
   */
  lemma ForgetsExactly(c: Caps, events: seq<Timed>, a: Addr, id: nat, now: real)
    requires Run(c, events).Some? && Possible(Run(c, events).value, Timer(a, id))
    ensures var w := Run(c, events).value;
            var t' := Step(c, w, Timer(a, id), now).t;
            && a in w.t.sources
            && var s := w.t.sources[a];
               if s.open == 0 && Brimful(s.links, now) && Brimful(s.setups, now) then
                 t'.sources == map b | b in w.t.sources && b != a :: w.t.sources[b]
               else
                 && a in t'.sources && t'.sources[a].open == s.open && t'.sources[a].handshaking == s.handshaking
                 && t'.sources[a].id == id && (s.open == 0 ==> (a, id) in t'.timers)
  {
    BooksAlways(c, events);
    var w := Run(c, events).value;
    assert PerSourceOn(c);
    assert Local(c, w.t, w.conns, a);
  }

  lemma NothingYet(c: Caps)
    ensures Books(c, World(EMPTY, map[]))
  {
    assert Opens(map[]) == map[] && Shakes(map[]) == map[];
    assert Shaking(map[]) == {};
  }
}
