/** Forgetting a source changes no decision, and one source passes its rate check no oftener for it (relay/limits.go). */
module Forgetting {
  import opened Results
  import opened Buckets
  import opened Limits
  import opened Admission

  // ------------------------------------------------ a table that never forgets

  /** What such a table keeps of a source, for good. */
  datatype Plain = Plain(open: int, handshaking: int, links: Bucket, setups: Bucket)

  datatype Book = Book(inbound: int, handshaking: int, sources: map<Addr, Plain>, conns: map<Conn, Link>)

  function Unseen(c: Caps, now: real): Plain {
    Plain(0, 0, NewBucket(c.linkRate, c.linkBurst, now), NewBucket(c.setupRate, c.setupBurst, now))
  }

  function Known(c: Caps, m: map<Addr, Plain>, src: Addr, now: real): Plain {
    if src in m then m[src] else Unseen(c, now)
  }

  function Write(b: Book, src: Addr, p: Plain): Book {
    b.(sources := b.sources[src := p])
  }

  function Enrol(b: Book, conn: Conn, src: Addr): Book {
    b.(inbound := b.inbound + 1, handshaking := b.handshaking + 1, conns := b.conns[conn := Link(src, true)])
  }

  function Charged(p: Plain, now: real): Plain {
    p.(links := Take(p.links, now).0)
  }

  function BookVerdict(c: Caps, b: Book, src: Addr, now: real): Verdict {
    var p := Known(c, b.sources, src, now);
    if !PerSourceOn(c) then Capped(c, Counts(b.inbound, b.handshaking), None)
    else if !Take(p.links, now).1 then RefusedRate
    else Capped(c, Counts(b.inbound, b.handshaking), Some(Counts(p.open, p.handshaking)))
  }

  function BookAdmit(c: Caps, b: Book, conn: Conn, src: Addr, now: real): Book {
    var v := BookVerdict(c, b, src, now);
    var p := Charged(Known(c, b.sources, src, now), now);
    if !PerSourceOn(c) then if v.Admitted? then Enrol(b, conn, src) else b
    else if v.Admitted? then Enrol(Write(b, src, p.(open := p.open + 1, handshaking := p.handshaking + 1)), conn, src)
    else Write(b, src, p)
  }

  function BookSetup(c: Caps, b: Book, src: Addr, now: real): (r: (Book, bool)) {
    if c.setupRate <= 0.0 || src !in b.sources then (b, true)
    else
      var (setups, ok) := Take(b.sources[src].setups, now);
      (Write(b, src, b.sources[src].(setups := setups)), ok)
  }

  /** The same events, and no timers: there is nothing to forget. */
  function BookStep(c: Caps, b: Book, e: Event, now: real): Book {
    match e
    case Connect(conn, src) => BookAdmit(c, b, conn, src, now)
    case Shaken(conn) =>
      if conn !in b.conns then b
      else
        var src := b.conns[conn].src;
        var b' := b.(handshaking := b.handshaking - 1, conns := b.conns[conn := Link(src, false)]);
        if src in b.sources then Write(b', src, b.sources[src].(handshaking := b.sources[src].handshaking - 1)) else b'
    case Gone(conn) =>
      if conn !in b.conns then b
      else
        var src := b.conns[conn].src;
        var b' := b.(inbound := b.inbound - 1, conns := b.conns - {conn});
        if src in b.sources then Write(b', src, b.sources[src].(open := b.sources[src].open - 1)) else b'
    case Timer(_, _) => b
    case SetupCell(conn) => if conn in b.conns then BookSetup(c, b, b.conns[conn].src, now).0 else b
  }

  function BookRun(c: Caps, events: seq<Timed>): Book {
    if events == [] then Book(0, 0, map[], map[])
    else
      var e := events[|events| - 1];
      BookStep(c, BookRun(c, events[..|events| - 1]), e.event, e.at)
  }

  // ------------------------------------------------------------------ decisions

  datatype Answer = Connection(verdict: Verdict) | SetupSaid(allowed: bool) | NoQuestion

  function Decides(c: Caps, w: World, e: Event, now: real): Answer {
    match e
    case Connect(_, src) => Connection(Admit(c, w.t, src, now).1)
    case SetupCell(conn) => if conn in w.conns then SetupSaid(AllowSetup(c, w.t, w.conns[conn].src, now).1) else NoQuestion
    case _ => NoQuestion
  }

  function BookDecides(c: Caps, b: Book, e: Event, now: real): Answer {
    match e
    case Connect(_, src) => Connection(BookVerdict(c, b, src, now))
    case SetupCell(conn) => if conn in b.conns then SetupSaid(BookSetup(c, b, b.conns[conn].src, now).1) else NoQuestion
    case _ => NoQuestion
  }

  function Answers(c: Caps, events: seq<Timed>): seq<Answer>
    requires Run(c, events).Some?
  {
    if events == [] then []
    else
      var init, e := events[..|events| - 1], events[|events| - 1];
      Answers(c, init) + [Decides(c, Run(c, init).value, e.event, e.at)]
  }

  function BookAnswers(c: Caps, events: seq<Timed>): seq<Answer> {
    if events == [] then []
    else
      var init, e := events[..|events| - 1], events[|events| - 1];
      BookAnswers(c, init) + [BookDecides(c, BookRun(c, init), e.event, e.at)]
  }

  /** Clock readings never go back. */
  ghost predicate Clocked(events: seq<Timed>) {
    forall i :: 0 < i < |events| ==> events[i - 1].at <= events[i].at
  }

  /** Whoever connects has an entry or finds room for one. */
  predicate RoomFor(c: Caps, t: Table, e: Event) {
    e.Connect? && PerSourceOn(c) ==> e.src in t.sources || |t.sources| < c.sourceCap
  }

  predicate Roomy(c: Caps, events: seq<Timed>)
    requires Run(c, events).Some?
  {
    events == [] ||
    (var init := events[..|events| - 1];
     Roomy(c, init) && RoomFor(c, Run(c, init).value.t, events[|events| - 1].event))
  }

  predicate Sane(c: Caps) {
    c.linkBurst >= 0.0 && c.setupBurst >= 0.0
  }

  // --------------------------------------------------------------- the relation

  /** An entry and the book's page on the same source. */
  ghost predicate Twin(c: Caps, s: Source, p: Plain, now: real) {
    && s.open == p.open && s.handshaking == p.handshaking
    && s.links.rate == c.linkRate && s.links.burst == c.linkBurst
    && s.setups.rate == c.setupRate && s.setups.burst == c.setupBurst
    && SameLevel(s.links, p.links, now) && SameLevel(s.setups, p.setups, now)
  }

  /** A page that an unseen source might as well have. */
  ghost predicate Idle(c: Caps, p: Plain, now: real) {
    && p.open == 0 && p.handshaking == 0
    && SameLevel(p.links, NewBucket(c.linkRate, c.linkBurst, now), now)
    && SameLevel(p.setups, NewBucket(c.setupRate, c.setupBurst, now), now)
  }

  ghost predicate Alike(c: Caps, t: Table, m: map<Addr, Plain>, a: Addr, now: real) {
    if a in t.sources then a in m && Twin(c, t.sources[a], m[a], now)
    else Idle(c, Known(c, m, a, now), now)
  }

  ghost predicate Mirrors(c: Caps, w: World, b: Book, now: real) {
    && w.conns == b.conns && w.t.inbound == b.inbound && w.t.handshaking == b.handshaking
    && (if PerSourceOn(c) then forall a :: Alike(c, w.t, b.sources, a, now) else w.t.sources == map[] && b.sources == map[])
  }

  lemma NewStaysNew(p: Bucket, rate: real, burst: real, now: real, later: real)
    requires now <= later && SameLevel(p, NewBucket(rate, burst, now), now)
    ensures SameLevel(p, NewBucket(rate, burst, later), later)
  {
    StaysLevel(p, NewBucket(rate, burst, now), now, later);
    if rate > 0.0 {
      GainNonNegative(later - now, rate);
    }
  }

  lemma AlikeLater(c: Caps, t: Table, m: map<Addr, Plain>, a: Addr, now: real, later: real)
    requires Sane(c) && Alike(c, t, m, a, now) && now <= later
    ensures Alike(c, t, m, a, later)
  {
    if a in t.sources {
      StaysLevel(t.sources[a].links, m[a].links, now, later);
      StaysLevel(t.sources[a].setups, m[a].setups, now, later);
    } else if a in m {
      NewStaysNew(m[a].links, c.linkRate, c.linkBurst, now, later);
      NewStaysNew(m[a].setups, c.setupRate, c.setupBurst, now, later);
    } else {
      UnseenIsIdle(c, later);
    }
  }

  lemma UnseenIsIdle(c: Caps, now: real)
    requires Sane(c)
    ensures Idle(c, Unseen(c, now), now)
  {
    LevelWithItself(NewBucket(c.linkRate, c.linkBurst, now), now);
    LevelWithItself(NewBucket(c.setupRate, c.setupBurst, now), now);
  }

  lemma MirrorsLater(c: Caps, w: World, b: Book, now: real, later: real)
    requires Sane(c) && Mirrors(c, w, b, now) && now <= later
    ensures Mirrors(c, w, b, later)
  {
    if PerSourceOn(c) {
      forall a ensures Alike(c, w.t, b.sources, a, later) {
        AlikeLater(c, w.t, b.sources, a, now, later);
      }
    }
  }

  ghost predicate PagesOnlyAt(m: map<Addr, Plain>, m': map<Addr, Plain>, src: Addr) {
    forall a :: a != src ==> (a in m <==> a in m') && (a in m ==> m'[a] == m[a])
  }

  /** Both tables moved at one source only, and agree there. */
  lemma MirrorsMoved(c: Caps, w: World, b: Book, w': World, b': Book, src: Addr, now: real)
    requires Mirrors(c, w, b, now) && PerSourceOn(c)
    requires OnlyAt(w.t, w'.t, src) && PagesOnlyAt(b.sources, b'.sources, src)
    requires w'.conns == b'.conns && w'.t.inbound == b'.inbound && w'.t.handshaking == b'.handshaking
    requires Alike(c, w'.t, b'.sources, src, now)
    ensures Mirrors(c, w', b', now)
  {
    forall a ensures Alike(c, w'.t, b'.sources, a, now) {
      if a != src {
        assert Alike(c, w.t, b.sources, a, now);
      }
    }
  }

  // ------------------------------------------------------------------- settling

  lemma DroppedIsIdle(c: Caps, s: Source, p: Plain, now: real)
    requires Sane(c) && Twin(c, s, p, now) && s.open == 0 && s.handshaking == 0
    requires LookFull(s.links, now).1 && LookFull(s.setups, now).1
    ensures Idle(c, p, now)
  {
    LooksAlike(s.links, p.links, now);
    LooksAlike(s.setups, p.setups, now);
    FullIsNew(p.links, now);
    FullIsNew(p.setups, now);
  }

  lemma LookedTwin(c: Caps, s: Source, p: Plain, links: Bucket, setups: Bucket, now: real)
    requires Twin(c, s, p, now)
    requires links == Looked(LookFull(s.links, now).0, now)
    requires setups == Looked(s.setups, now) || setups == Looked(LookFull(s.setups, now).0, now)
    ensures Twin(c, s.(links := links, setups := setups, forgetting := true), p, now)
  {
    LooksAlike(s.links, p.links, now);
    LooksAlike(LookFull(s.links, now).0, p.links, now);
    LooksAlike(s.setups, p.setups, now);
    LooksAlike(LookFull(s.setups, now).0, p.setups, now);
  }

  lemma SettleUnfolds(t: Table, src: Addr, now: real)
    requires src in t.sources
    ensures var s, t' := t.sources[src], Settle(t, src, now);
            || (src in t'.sources && t'.sources[src] == s)
            || (src !in t'.sources && s.open <= 0 && LookFull(s.links, now).1 && LookFull(s.setups, now).1)
            || (src in t'.sources && exists setups ::
                  && (setups == Looked(s.setups, now) || setups == Looked(LookFull(s.setups, now).0, now))
                  && t'.sources[src] == s.(links := Looked(LookFull(s.links, now).0, now), setups := setups, forgetting := true))
  {
    var s, t' := t.sources[src], Settle(t, src, now);
    if src in t'.sources && t'.sources[src] != s {
      var setups := t'.sources[src].setups;
      assert t'.sources[src] == s.(links := Looked(LookFull(s.links, now).0, now), setups := setups, forgetting := true);
    }
  }

  lemma SettleAlike(c: Caps, t: Table, m: map<Addr, Plain>, src: Addr, now: real)
    requires Sane(c) && src in t.sources && src in m && Twin(c, t.sources[src], m[src], now)
    requires 0 <= t.sources[src].handshaking <= t.sources[src].open
    ensures Alike(c, Settle(t, src, now), m, src, now)
  {
    var s, t' := t.sources[src], Settle(t, src, now);
    SettleUnfolds(t, src, now);
    if src !in t'.sources {
      DroppedIsIdle(c, s, m[src], now);
    } else if t'.sources[src] != s {
      var setups :| && (setups == Looked(s.setups, now) || setups == Looked(LookFull(s.setups, now).0, now))
                    && t'.sources[src] == s.(links := Looked(LookFull(s.links, now).0, now), setups := setups, forgetting := true);
      LookedTwin(c, s, m[src], Looked(LookFull(s.links, now).0, now), setups, now);
    }
  }

  /** The settled table and an unsettled book. */
  lemma MirrorsSettled(c: Caps, w: World, b: Book, m: World, b': Book, src: Addr, now: real)
    requires Sane(c) && Mirrors(c, w, b, now) && PerSourceOn(c) && src in m.t.sources && src in b'.sources
    requires OnlyAt(w.t, m.t, src) && PagesOnlyAt(b.sources, b'.sources, src)
    requires m.conns == b'.conns && m.t.inbound == b'.inbound && m.t.handshaking == b'.handshaking
    requires Twin(c, m.t.sources[src], b'.sources[src], now)
    requires 0 <= m.t.sources[src].handshaking <= m.t.sources[src].open
    ensures Mirrors(c, World(Settle(m.t, src, now), m.conns), b', now)
  {
    var t' := Settle(m.t, src, now);
    SettleSettles(m.t, src, now);
    OnlyAtTwice(w.t, m.t, t', src);
    SettleAlike(c, m.t, b'.sources, src, now);
    MirrorsMoved(c, w, b, World(t', m.conns), b', src, now);
  }

  // ----------------------------------------------------------------- the events

  lemma EntryTwin(c: Caps, t: Table, m: map<Addr, Plain>, src: Addr, now: real)
    requires Sane(c) && Alike(c, t, m, src, now)
    ensures Twin(c, Entry(c, t, src, now).sources[src], Known(c, m, src, now), now)
  {}

  lemma DrawnTwin(c: Caps, t: Table, m: map<Addr, Plain>, src: Addr, now: real)
    requires Sane(c) && Alike(c, t, m, src, now)
    ensures Twin(c, Drawn(c, t, src, now).sources[src], Charged(Known(c, m, src, now), now), now)
    ensures Take(Entry(c, t, src, now).sources[src].links, now).1 == Take(Known(c, m, src, now).links, now).1
  {
    EntryTwin(c, t, m, src, now);
    TakesAlike(Entry(c, t, src, now).sources[src].links, Known(c, m, src, now).links, now);
  }

  lemma SameVerdict(c: Caps, w: World, b: Book, conn: Conn, src: Addr, now: real)
    requires Sane(c) && Mirrors(c, w, b, now) && RoomFor(c, w.t, Connect(conn, src))
    ensures Admit(c, w.t, src, now).1 == BookVerdict(c, b, src, now)
  {
    if PerSourceOn(c) {
      assert Alike(c, w.t, b.sources, src, now);
      EntryTwin(c, w.t, b.sources, src, now);
      DrawnTwin(c, w.t, b.sources, src, now);
    }
  }

  /** The entry and the page admit works on, both charged, before it decides. */
  ghost predicate Prepared(c: Caps, w: World, e: Table, p: Plain, src: Addr, now: real) {
    && src in e.sources && OnlyAt(w.t, e, src) && e.inbound == w.t.inbound && e.handshaking == w.t.handshaking
    && Twin(c, e.sources[src], p, now) && Counted(c, e, w.conns, src)
  }

  lemma DrawnPrepared(c: Caps, w: World, b: Book, src: Addr, now: real)
    requires Sane(c) && Alike(c, w.t, b.sources, src, now) && Local(c, w.t, w.conns, src)
    ensures Prepared(c, w, Drawn(c, w.t, src, now), Charged(Known(c, b.sources, src, now), now), src, now)
  {
    DrawnTwin(c, w.t, b.sources, src, now);
    DrawnCounts(c, w.t, w.conns, src, now);
  }

  /** Admitted: the entry and the page both count one more. */
  lemma EntersMirrors(c: Caps, w: World, b: Book, e: Table, p: Plain, conn: Conn, src: Addr, now: real)
    requires Mirrors(c, w, b, now) && PerSourceOn(c) && Prepared(c, w, e, p, src, now)
    ensures Mirrors(c, World(Entered(e, src), w.conns[conn := Link(src, true)]),
                    Enrol(Write(b, src, p.(open := p.open + 1, handshaking := p.handshaking + 1)), conn, src), now)
  {
    OnlyAtTwice(w.t, e, Entered(e, src), src);
    MirrorsMoved(c, w, b, World(Entered(e, src), w.conns[conn := Link(src, true)]),
                 Enrol(Write(b, src, p.(open := p.open + 1, handshaking := p.handshaking + 1)), conn, src), src, now);
  }

  /** Refused: the charge stays on both. */
  lemma RefusedMirrors(c: Caps, w: World, b: Book, e: Table, p: Plain, src: Addr, now: real)
    requires Sane(c) && Mirrors(c, w, b, now) && PerSourceOn(c) && Prepared(c, w, e, p, src, now)
    ensures Mirrors(c, World(Settle(e, src, now), w.conns), Write(b, src, p), now)
  {
    ShakingWithin(w.conns, src);
    MirrorsSettled(c, w, b, World(e, w.conns), Write(b, src, p), src, now);
  }

  lemma ConnectUnfolds(c: Caps, w: World, conn: Conn, src: Addr, now: real)
    requires PerSourceOn(c) && conn !in w.conns && RoomFor(c, w.t, Connect(conn, src))
    ensures var e := Drawn(c, w.t, src, now);
            Step(c, w, Connect(conn, src), now)
            == if Admit(c, w.t, src, now).1.Admitted? then World(Entered(e, src), w.conns[conn := Link(src, true)])
               else World(Settle(e, src, now), w.conns)
  {
    AdmitUnfolds(c, w.t, src, now);
  }

  lemma BookUnfolds(c: Caps, b: Book, conn: Conn, src: Addr, now: real)
    requires PerSourceOn(c)
    ensures var p := Charged(Known(c, b.sources, src, now), now);
            BookStep(c, b, Connect(conn, src), now)
            == if BookVerdict(c, b, src, now).Admitted?
               then Enrol(Write(b, src, p.(open := p.open + 1, handshaking := p.handshaking + 1)), conn, src)
               else Write(b, src, p)
  {}

  lemma ConnectMirrors(c: Caps, w: World, b: Book, conn: Conn, src: Addr, now: real)
    requires Sane(c) && Books(c, w) && Mirrors(c, w, b, now)
    requires conn !in w.conns && RoomFor(c, w.t, Connect(conn, src))
    ensures Mirrors(c, Step(c, w, Connect(conn, src), now), BookStep(c, b, Connect(conn, src), now), now)
  {
    SameVerdict(c, w, b, conn, src, now);
    if PerSourceOn(c) {
      assert Alike(c, w.t, b.sources, src, now) && Local(c, w.t, w.conns, src);
      DrawnPrepared(c, w, b, src, now);
      EntryMirrors(c, w, b, conn, src, now);
    }
  }

  lemma EntryMirrors(c: Caps, w: World, b: Book, conn: Conn, src: Addr, now: real)
    requires Sane(c) && Mirrors(c, w, b, now) && PerSourceOn(c)
    requires conn !in w.conns && RoomFor(c, w.t, Connect(conn, src))
    requires Admit(c, w.t, src, now).1 == BookVerdict(c, b, src, now)
    requires Prepared(c, w, Drawn(c, w.t, src, now), Charged(Known(c, b.sources, src, now), now), src, now)
    ensures Mirrors(c, Step(c, w, Connect(conn, src), now), BookStep(c, b, Connect(conn, src), now), now)
  {
    var e, p := Drawn(c, w.t, src, now), Charged(Known(c, b.sources, src, now), now);
    ConnectUnfolds(c, w, conn, src, now);
    BookUnfolds(c, b, conn, src, now);
    if BookVerdict(c, b, src, now).Admitted? {
      EntersMirrors(c, w, b, e, p, conn, src, now);
    } else {
      RefusedMirrors(c, w, b, e, p, src, now);
    }
  }

  lemma HasEntry(c: Caps, w: World, conn: Conn)
    requires Books(c, w) && PerSourceOn(c) && conn in w.conns
    ensures w.conns[conn].src in w.t.sources
  {
    var src := w.conns[conn].src;
    assert Local(c, w.t, w.conns, src);
    assert conn in From(w.conns, src);
  }

  lemma ShakenMirrors(c: Caps, w: World, b: Book, conn: Conn, now: real)
    requires Books(c, w) && Mirrors(c, w, b, now) && Possible(w, Shaken(conn))
    ensures Mirrors(c, Step(c, w, Shaken(conn), now), BookStep(c, b, Shaken(conn), now), now)
  {
    if PerSourceOn(c) {
      var src := w.conns[conn].src;
      HasEntry(c, w, conn);
      assert Alike(c, w.t, b.sources, src, now);
      MirrorsMoved(c, w, b, Step(c, w, Shaken(conn), now), BookStep(c, b, Shaken(conn), now), src, now);
    }
  }

  lemma GoneMirrors(c: Caps, w: World, b: Book, conn: Conn, now: real)
    requires Sane(c) && Books(c, w) && Mirrors(c, w, b, now) && Possible(w, Gone(conn))
    ensures Mirrors(c, Step(c, w, Gone(conn), now), BookStep(c, b, Gone(conn), now), now)
  {
    if PerSourceOn(c) {
      var src := w.conns[conn].src;
      HasEntry(c, w, conn);
      assert Alike(c, w.t, b.sources, src, now) && Local(c, w.t, w.conns, src);
      var m := Put(w.t.(inbound := w.t.inbound - 1), src, w.t.sources[src].(open := w.t.sources[src].open - 1));
      GoneLinks(w.conns, conn);
      ShakingWithin(w.conns - {conn}, src);
      MirrorsSettled(c, w, b, World(m, w.conns - {conn}), BookStep(c, b, Gone(conn), now), src, now);
    }
  }

  lemma TimerMirrors(c: Caps, w: World, b: Book, a: Addr, id: nat, now: real)
    requires Sane(c) && Books(c, w) && Mirrors(c, w, b, now) && Possible(w, Timer(a, id))
    ensures Mirrors(c, Step(c, w, Timer(a, id), now), b, now)
  {
    TimerKeeps(c, w, a, id, now);
    assert Alike(c, w.t, b.sources, a, now) && Local(c, w.t, w.conns, a);
    var m := Put(w.t.(timers := w.t.timers - {(a, id)}), a, w.t.sources[a].(forgetting := false));
    ShakingWithin(w.conns, a);
    MirrorsSettled(c, w, b, World(m, w.conns), b, a, now);
  }

  lemma SetupMirrors(c: Caps, w: World, b: Book, conn: Conn, now: real)
    requires Books(c, w) && Mirrors(c, w, b, now) && Possible(w, SetupCell(conn))
    ensures Mirrors(c, Step(c, w, SetupCell(conn), now), BookStep(c, b, SetupCell(conn), now), now)
    ensures Decides(c, w, SetupCell(conn), now) == BookDecides(c, b, SetupCell(conn), now)
  {
    if PerSourceOn(c) {
      var src := w.conns[conn].src;
      HasEntry(c, w, conn);
      assert Alike(c, w.t, b.sources, src, now);
      TakesAlike(w.t.sources[src].setups, b.sources[src].setups, now);
      MirrorsMoved(c, w, b, Step(c, w, SetupCell(conn), now), BookStep(c, b, SetupCell(conn), now), src, now);
    }
  }

  lemma StepMirrors(c: Caps, w: World, b: Book, e: Event, now: real)
    requires Sane(c) && Books(c, w) && Mirrors(c, w, b, now) && Possible(w, e) && RoomFor(c, w.t, e)
    ensures Mirrors(c, Step(c, w, e, now), BookStep(c, b, e, now), now)
    ensures Decides(c, w, e, now) == BookDecides(c, b, e, now)
  {
    match e
    case Connect(conn, src) =>
      SameVerdict(c, w, b, conn, src, now);
      ConnectMirrors(c, w, b, conn, src, now);
    case Shaken(conn) => ShakenMirrors(c, w, b, conn, now);
    case Gone(conn) => GoneMirrors(c, w, b, conn, now);
    case Timer(a, id) => TimerMirrors(c, w, b, a, id, now);
    case SetupCell(conn) => SetupMirrors(c, w, b, conn, now);
  }

  lemma NothingMirrors(c: Caps, now: real)
    requires Sane(c)
    ensures Mirrors(c, World(EMPTY, map[]), Book(0, 0, map[], map[]), now)
  {
    UnseenIsIdle(c, now);
  }

  /**
   While the clock goes forward and there is room in the table, the table that
   forgets answers every connection and every setup as one that never forgets.
   */
  lemma {:induction false} ForgettingIsUnseen(c: Caps, events: seq<Timed>)
    requires Sane(c) && Run(c, events).Some? && Clocked(events) && Roomy(c, events)
    ensures Answers(c, events) == BookAnswers(c, events)
    ensures events != [] ==> Mirrors(c, Run(c, events).value, BookRun(c, events), events[|events| - 1].at)
    decreases |events|
  {
    if events != [] {
      var init, e := events[..|events| - 1], events[|events| - 1];
      ForgettingIsUnseen(c, init);
      BooksAlways(c, init);
      if init == [] {
        NothingMirrors(c, e.at);
      } else {
        MirrorsLater(c, Run(c, init).value, BookRun(c, init), init[|init| - 1].at, e.at);
      }
      StepMirrors(c, Run(c, init).value, BookRun(c, init), e.event, e.at);
    }
  }
}
