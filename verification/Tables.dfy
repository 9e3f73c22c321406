/** The relay's tables of circuits, and who closes each hop (relay/relay.go). */
module Tables {
  import opened Results
  import opened ByteStrings

  type LinkId = nat
  type HopId = nat

  /** A registered circuit: the link it came in on and the hop that holds its keys. */
  datatype Circuit = Circuit(link: LinkId, hop: HopId)

  datatype Tables = Tables(circuits: map<Uint64, Circuit>, owners: map<LinkId, Uint64>, closed: bool)

  datatype Registered = Entered | ShutDown | Duplicate | LinkTaken

  function Register(t: Tables, id: Uint64, c: Circuit): (r: (Tables, Registered)) {
    if t.closed then (t, ShutDown)
    else if id in t.circuits then (t, Duplicate)
    else if c.link in t.owners then (t, LinkTaken)
    else (t.(circuits := t.circuits[id := c], owners := t.owners[c.link := id]), Entered)
  }

  function Strike(t: Tables, id: Uint64, link: LinkId): Tables {
    t.(circuits := t.circuits - {id}, owners := t.owners - {link})
  }

  /** What teardown takes out of the tables, and the circuit it then releases. */
  function Teardown(t: Tables, link: LinkId): (r: (Tables, Option<Circuit>)) {
    if link !in t.owners then (t, None)
    else
      var id := t.owners[link];
      (Strike(t, id, link), if id in t.circuits then Some(t.circuits[id]) else None)
  }

  /** The tables as the relay holds them; every method runs under its lock. */
  class CircuitTables {
    var circuits: map<Uint64, Circuit>
    var owners: map<LinkId, Uint64>
    var closed: bool

    function Value(): Tables
      reads this
    {
      Tables(circuits, owners, closed)
    }

    constructor ()
      ensures Value() == Tables(map[], map[], false)
    {
      circuits, owners, closed := map[], map[], false;
    }

    method Enter(id: Uint64, link: LinkId, hop: HopId) returns (r: Registered)
      modifies this
      ensures (Value(), r) == Register(old(Value()), id, Circuit(link, hop))
    {
      if closed {
        return ShutDown;
      }
      if id in circuits {
        return Duplicate;
      }
      if link in owners {
        return LinkTaken;
      }
      circuits := circuits[id := Circuit(link, hop)];
      owners := owners[link := id];
      return Entered;
    }

    method ExtendFailed(id: Uint64, link: LinkId)
      modifies this
      ensures Value() == Strike(old(Value()), id, link)
    {
      circuits := circuits - {id};
      owners := owners - {link};
    }

    method TearDown(link: LinkId) returns (c: Option<Circuit>)
      modifies this
      ensures (Value(), c) == Teardown(old(Value()), link)
    {
      c := None;
      if link in owners {
        var id := owners[link];
        if id in circuits {
          c := Some(circuits[id]);
        }
        owners := owners - {link};
        circuits := circuits - {id};
      }
    }
  }

  // ------------------------------------------------------------------- handlers

  /** Where the one goroutine of a link stands between two holds of the lock. */
  datatype Phase =
    | Reading
    | Built(id: Uint64, hop: HopId, exit: bool)
    | Extending(id: Uint64, hop: HopId)
    | Dropping(hop: HopId, fatal: bool)
    | Doomed
    | Releasing(hop: HopId)
    | Ended

  /** Hops are numbered as they are built; closes counts the calls of Close on each. */
  datatype World = World(t: Tables, phases: map<LinkId, Phase>, built: nat, closes: multiset<HopId>)

  const START := World(Tables(map[], map[], false), map[], 0, multiset{})

  datatype Event =
    | Accepted
    | Setup(id: Uint64, exit: bool)
    | Locked
    | Extended(ok: bool)
    | Closes
    | Breaks
    | TearsDown
    | Shuts

  predicate Possible(w: World, l: LinkId, e: Event) {
    match e
    case Accepted => l !in w.phases
    case Setup(_, _) => l in w.phases && w.phases[l].Reading?
    case Locked => l in w.phases && w.phases[l].Built?
    case Extended(_) => l in w.phases && w.phases[l].Extending?
    case Closes => l in w.phases && (w.phases[l].Dropping? || w.phases[l].Releasing?)
    case Breaks => l in w.phases && w.phases[l].Reading?
    case TearsDown => l in w.phases && w.phases[l].Doomed?
    case Shuts => true
  }

  function Goes(w: World, l: LinkId, p: Phase): World {
    w.(phases := w.phases[l := p])
  }

  /** setupFailed: an error is fatal for a link that carries no circuit. */
  function Failed(t: Tables, l: LinkId, hop: HopId): Phase {
    Dropping(hop, l !in t.owners)
  }

  function Step(w: World, l: LinkId, e: Event): World
    requires Possible(w, l, e)
  {
    match e
    case Accepted => Goes(w, l, Reading)
    case Setup(id, exit) =>
      // a setup on a link that owns a circuit builds nothing
      if l in w.t.owners then w else Goes(w, l, Built(id, w.built, exit)).(built := w.built + 1)
    case Locked =>
      var p := w.phases[l];
      var (t, r) := Register(w.t, p.id, Circuit(l, p.hop));
      Goes(w, l, match r
                 case Entered => if p.exit then Reading else Extending(p.id, p.hop)
                 case ShutDown => Dropping(p.hop, true)
                 case Duplicate => Failed(w.t, l, p.hop)
                 case LinkTaken => Dropping(p.hop, false)).(t := t)
    case Extended(ok) =>
      var p := w.phases[l];
      if ok then Goes(w, l, Reading)
      else
        var t := Strike(w.t, p.id, l);
        Goes(w, l, Failed(t, l, p.hop)).(t := t)
    case Closes =>
      var p := w.phases[l];
      Goes(w, l, if p.Releasing? then Ended else if p.fatal then Doomed else Reading).(closes := w.closes + multiset{p.hop})
    case Breaks => Goes(w, l, Doomed)
    case TearsDown =>
      var (t, c) := Teardown(w.t, l);
      Goes(w, l, if c.Some? then Releasing(c.value.hop) else Ended).(t := t)
    case Shuts => w.(t := w.t.(closed := true))
  }

  // ----------------------------------------------------------------- invariants

  /** circuits and owners are inverse to each other. */
  ghost predicate Inverse(t: Tables) {
    && (forall id :: id in t.circuits ==> t.circuits[id].link in t.owners && t.owners[t.circuits[id].link] == id)
    && (forall l :: l in t.owners ==> t.owners[l] in t.circuits && t.circuits[t.owners[l]].link == l)
  }

  /** Between two holds of the lock, a handler alone holds a hop that is not in the tables. */
  predicate Holding(p: Phase) {
    p.Built? || p.Dropping? || p.Releasing?
  }

  /** Which phases a link in the owners table can be in, and what it means to be extending. */
  ghost predicate PhaseFits(w: World, l: LinkId) {
    && (l in w.t.owners ==> l in w.phases && !Holding(w.phases[l]) && !w.phases[l].Ended?)
    && (l in w.phases && w.phases[l].Extending? ==>
          var p := w.phases[l]; l in w.t.owners && w.t.owners[l] == p.id && p.id in w.t.circuits && w.t.circuits[p.id].hop == p.hop)
  }

  ghost predicate InTable(w: World, h: HopId) {
    exists id :: id in w.t.circuits && w.t.circuits[id].hop == h
  }

  ghost predicate InHand(w: World, h: HopId) {
    exists l :: l in w.phases && Holding(w.phases[l]) && w.phases[l].hop == h
  }

  /** A hop is in the tables, in one handler's hands, or closed once; and in one of these only. */
  ghost predicate HopFits(w: World, h: HopId) {
    Apart(w, h) && (h < w.built ==> Accounted(w, h))
  }

  ghost predicate Accounted(w: World, h: HopId) {
    InTable(w, h) || InHand(w, h) || w.closes[h] == 1
  }

  ghost predicate Apart(w: World, h: HopId) {
    && w.closes[h] <= 1
    && (h >= w.built ==> w.closes[h] == 0 && !InTable(w, h) && !InHand(w, h))
    && (w.closes[h] == 1 ==> !InTable(w, h) && !InHand(w, h))
    && !(InTable(w, h) && InHand(w, h))
  }

  predicate SameHop(p: Phase, q: Phase) {
    Holding(p) && Holding(q) && p.hop == q.hop
  }

  ghost predicate Sole(w: World) {
    && (forall i, j :: i in w.t.circuits && j in w.t.circuits && w.t.circuits[i].hop == w.t.circuits[j].hop ==> i == j)
    && (forall k, l :: k in w.phases && l in w.phases && SameHop(w.phases[k], w.phases[l]) ==> k == l)
  }

  ghost predicate Kept(w: World) {
    && Inverse(w.t) && (forall l :: PhaseFits(w, l)) && Sole(w) && (forall h :: HopFits(w, h))
  }

  lemma StartKept()
    ensures Kept(START)
  {}

  /** What a step does to where hops are: every place but the acting link's and one id's stays. */
  lemma InverseKept(w: World, l: LinkId, e: Event)
    requires Kept(w) && Possible(w, l, e)
    ensures Inverse(Step(w, l, e).t)
  {
    assert PhaseFits(w, l);
  }

  lemma PhasesKept(w: World, l: LinkId, e: Event, k: LinkId)
    requires Kept(w) && Possible(w, l, e)
    ensures PhaseFits(Step(w, l, e), k)
  {
    assert PhaseFits(w, l) && PhaseFits(w, k);
  }

  /** The hop the acting handler is concerned with. */
  function Concerned(w: World, l: LinkId, e: Event): (h: HopId)
    requires Possible(w, l, e)
  {
    match e
    case Locked => w.phases[l].hop
    case Extended(_) => w.phases[l].hop
    case Closes => w.phases[l].hop
    case TearsDown =>
      if l in w.t.owners && w.t.owners[l] in w.t.circuits then w.t.circuits[w.t.owners[l]].hop else w.built
    case _ => w.built
  }

  /** Before a step that moves a hop, the hop is where its handler knows it to be. */
  lemma ConcernedIsHeld(w: World, l: LinkId, e: Event)
    requires Kept(w) && Possible(w, l, e)
    ensures var h := Concerned(w, l, e);
            && HopFits(w, h)
            && (e.Locked? || e.Closes? ==> InHand(w, h))
            && (e.Extended? || (e.TearsDown? && l in w.t.owners) ==> InTable(w, h))
  {
    assert PhaseFits(w, l);
    assert HopFits(w, Concerned(w, l, e));
  }

  lemma SoleKept(w: World, l: LinkId, e: Event)
    requires Kept(w) && Possible(w, l, e)
    ensures Sole(Step(w, l, e))
  {
    assert PhaseFits(w, l);
    ConcernedIsHeld(w, l, e);
  }

  lemma ApartKept(w: World, l: LinkId, e: Event, h: HopId)
    requires Kept(w) && Possible(w, l, e)
    ensures Apart(Step(w, l, e), h)
  {
    assert PhaseFits(w, l) && HopFits(w, h);
    ConcernedIsHeld(w, l, e);
  }

  lemma AccountedKept(w: World, l: LinkId, e: Event, h: HopId)
    requires Kept(w) && Possible(w, l, e) && h < Step(w, l, e).built
    ensures Accounted(Step(w, l, e), h)
  {
    assert PhaseFits(w, l) && HopFits(w, h);
    var w' := Step(w, l, e);
    if InTable(w, h) {
      var id :| id in w.t.circuits && w.t.circuits[id].hop == h;
      assert (id in w'.t.circuits && w'.t.circuits[id].hop == h) || (Holding(w'.phases[l]) && w'.phases[l].hop == h);
    } else if InHand(w, h) {
      var k :| k in w.phases && Holding(w.phases[k]) && w.phases[k].hop == h;
      assert (k in w'.phases && Holding(w'.phases[k]) && w'.phases[k].hop == h)
          || (k == l && e.Locked? && w.phases[l].id in w'.t.circuits && w'.t.circuits[w.phases[l].id].hop == h)
          || (k == l && e.Closes? && w'.closes[h] == 1);
    } else if e.Setup? && h == w.built {
      assert Holding(w'.phases[l]) && w'.phases[l].hop == h;
    }
  }

  lemma StepKept(w: World, l: LinkId, e: Event)
    requires Kept(w) && Possible(w, l, e)
    ensures Kept(Step(w, l, e))
  {
    InverseKept(w, l, e);
    SoleKept(w, l, e);
    forall k ensures PhaseFits(Step(w, l, e), k) { PhasesKept(w, l, e, k); }
    forall h: HopId ensures HopFits(Step(w, l, e), h) {
      ApartKept(w, l, e, h);
      if h < Step(w, l, e).built { AccountedKept(w, l, e, h); }
    }
  }

  /** A live circuit is never replaced or moved, and a link's entry neither: they only come and go. */
  lemma NeverReplaced(w: World, l: LinkId, e: Event)
    requires Kept(w) && Possible(w, l, e)
    ensures var t, t' := w.t, Step(w, l, e).t;
            && (forall id :: id in t.circuits && id in t'.circuits ==> t'.circuits[id] == t.circuits[id])
            && (forall k :: k in t.owners && k in t'.owners ==> t'.owners[k] == t.owners[k])
            && (forall id :: id in t.circuits && id !in t'.circuits ==> t.circuits[id].link == l)
  {
    assert PhaseFits(w, l);
  }

  /** The second look at owners, before registering, never finds the link taken. */
  lemma LinkTakenUnreachable(w: World, l: LinkId)
    requires Kept(w) && Possible(w, l, Locked)
    ensures Register(w.t, w.phases[l].id, Circuit(l, w.phases[l].hop)).1 != LinkTaken
  {
    assert PhaseFits(w, l);
  }

  // ----------------------------------------------------------------------- runs

  datatype Turn = Turn(link: LinkId, event: Event)

  function Run(turns: seq<Turn>): Option<World> {
    if turns == [] then Some(START)
    else match Run(turns[..|turns| - 1])
      case None => None
      case Some(w) =>
        var t := turns[|turns| - 1];
        if Possible(w, t.link, t.event) then Some(Step(w, t.link, t.event)) else None
  }

  lemma {:induction false} KeptAlways(turns: seq<Turn>)
    requires Run(turns).Some?
    ensures Kept(Run(turns).value)
    decreases |turns|
  {
    if turns == [] {
      StartKept();
    } else {
      var t := turns[|turns| - 1];
      KeptAlways(turns[..|turns| - 1]);
      StepKept(Run(turns[..|turns| - 1]).value, t.link, t.event);
    }
  }

  /**
   In every interleaving, the handler that comes to register enters its circuit
   exactly while the relay is open and the id is free. Its link always is. It then
   serves the link or dials the next hop; otherwise the tables stay as they were,
   the hop goes, and the link with it.
   */
  lemma EntersExactly(turns: seq<Turn>, l: LinkId)
    requires Run(turns).Some? && Possible(Run(turns).value, l, Locked)
    ensures var w, w' := Run(turns).value, Step(Run(turns).value, l, Locked);
            var p := w.phases[l];
            if !w.t.closed && p.id !in w.t.circuits then
              && w'.t.circuits == w.t.circuits[p.id := Circuit(l, p.hop)] && w'.t.owners == w.t.owners[l := p.id] && !w'.t.closed
              && w'.phases == w.phases[l := if p.exit then Reading else Extending(p.id, p.hop)]
            else
              w'.t == w.t && w'.phases == w.phases[l := Dropping(p.hop, true)]
  {
    KeptAlways(turns);
    assert PhaseFits(Run(turns).value, l);
  }

  /** The other steps touch no table: a first setup on a link builds one hop, a dialled hop serves, a dropped one is closed once. */
  lemma ServesExactly(turns: seq<Turn>, l: LinkId, e: Event)
    requires Run(turns).Some? && Possible(Run(turns).value, l, e) && (e.Setup? || e == Extended(true) || e.Closes?)
    ensures var w, w' := Run(turns).value, Step(Run(turns).value, l, e);
            && w'.t == w.t && (e.Setup? && l in w.t.owners ==> w' == w)
            && (e.Setup? && l !in w.t.owners ==>
                  w'.built == w.built + 1 && w'.closes == w.closes && w'.phases == w.phases[l := Built(e.id, w.built, e.exit)])
            && (e.Extended? ==> w'.phases == w.phases[l := Reading] && w'.built == w.built && w'.closes == w.closes)
            && (e.Closes? ==>
                  && w'.built == w.built && w'.closes == w.closes + multiset{w.phases[l].hop}
                  && w'.phases[l] == match w.phases[l]
                                     case Releasing(_) => Ended
                                     case Dropping(_, fatal) => if fatal then Doomed else Reading
                                     case _ => w.phases[l])
  {}

  /** And what ends a circuit takes exactly its own two entries: the failed dial and the end of its link. */
  lemma LeavesExactly(turns: seq<Turn>, l: LinkId, e: Event)
    requires Run(turns).Some? && Possible(Run(turns).value, l, e) && (e.TearsDown? || e == Extended(false))
    ensures var w, w' := Run(turns).value, Step(Run(turns).value, l, e);
            if l in w.t.owners then
              var id := w.t.owners[l];
              && id in w.t.circuits && w'.t.circuits == w.t.circuits - {id} && w'.t.owners == w.t.owners - {l}
              && w'.phases[l] == if e.TearsDown? then Releasing(w.t.circuits[id].hop) else Dropping(w.t.circuits[id].hop, true)
            else e.TearsDown? && w'.t == w.t && w'.phases[l] == Ended
  {
    KeptAlways(turns);
    assert PhaseFits(Run(turns).value, l);
  }

  /** In every interleaving no link carries two circuits and no hop is closed twice, or while it is in use. */
  lemma NeverTwice(turns: seq<Turn>)
    requires Run(turns).Some?
    ensures var w := Run(turns).value;
            && Inverse(w.t)
            && (forall i, j :: i in w.t.circuits && j in w.t.circuits && w.t.circuits[i].link == w.t.circuits[j].link ==> i == j)
            && (forall h :: w.closes[h] <= 1)
            && (forall id :: id in w.t.circuits ==> w.closes[w.t.circuits[id].hop] == 0)
  {
    KeptAlways(turns);
    var w := Run(turns).value;
    forall h: HopId ensures w.closes[h] <= 1 { assert HopFits(w, h); }
    forall id | id in w.t.circuits ensures w.closes[w.t.circuits[id].hop] == 0 {
      assert HopFits(w, w.t.circuits[id].hop);
    }
  }

  /** Once every handler has ended, both tables are empty and every hop ever built was closed exactly once. */
  lemma AllClosedAtTheEnd(turns: seq<Turn>)
    requires Run(turns).Some?
    requires forall l :: l in Run(turns).value.phases ==> Run(turns).value.phases[l].Ended?
    ensures var w := Run(turns).value;
            && w.t.circuits == map[] && w.t.owners == map[]
            && (forall h: HopId :: w.closes[h] == if h < w.built then 1 else 0)
  {
    KeptAlways(turns);
    var w := Run(turns).value;
    forall l ensures l !in w.t.owners { assert PhaseFits(w, l); }
    forall h: HopId ensures w.closes[h] == if h < w.built then 1 else 0 { assert HopFits(w, h); }
  }
}
