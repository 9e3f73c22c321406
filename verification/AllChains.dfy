/** The mirror shares, counted over every entry and every chain it gives (lab/metrics/compromise.go). */
module AllChains {
  import opened Results
  import opened Compromise
  import opened EveryChain
  import opened Mirrors

  // -------------------------------------------------------- what an entry serves

  /** The nodes without those of one kind: what an honest entry's mirror lacks is what is withheld. */
  function Without(pool: seq<Kind>, k: Kind): seq<Kind> {
    if pool == [] then []
    else if pool[|pool| - 1] == k then Without(pool[..|pool| - 1], k)
    else Without(pool[..|pool| - 1], k) + [pool[|pool| - 1]]
  }

  /** The nodes without n honest ones: what a rogue entry leaves out. */
  function Fewer(pool: seq<Kind>, n: nat): seq<Kind>
    decreases |pool|
  {
    if pool == [] || n == 0 then pool
    else if pool[|pool| - 1].Honest? then Fewer(pool[..|pool| - 1], n - 1)
    else Fewer(pool[..|pool| - 1], n) + [pool[|pool| - 1]]
  }

  function Behind(nodes: seq<Kind>, i: nat, leftOut: nat): seq<Kind>
    requires i < |nodes|
  {
    if nodes[i].Honest? then Without(Drop(nodes, i), Withholding) else Fewer(Drop(nodes, i), leftOut)
  }

  lemma {:induction false} AmongWithout(pool: seq<Kind>, k: Kind, j: Kind)
    ensures Among(Without(pool, k), j) == if j == k then 0 else Among(pool, j)
    decreases |pool|
  {
    if pool != [] {
      AmongWithout(pool[..|pool| - 1], k, j);
      AmongSnoc(Without(pool[..|pool| - 1], k), pool[|pool| - 1], j);
    }
  }

  lemma {:induction false} AmongFewer(pool: seq<Kind>, n: nat, j: Kind)
    requires n <= Among(pool, Honest)
    ensures Among(Fewer(pool, n), j) == if j.Honest? then Among(pool, j) - n else Among(pool, j)
    decreases |pool|
  {
    if pool != [] && n > 0 {
      var init, last := pool[..|pool| - 1], pool[|pool| - 1];
      if last.Honest? {
        AmongFewer(init, n - 1, j);
      } else {
        AmongFewer(init, n, j);
        AmongSnoc(Fewer(init, n), last, j);
      }
    }
  }

  /** What is behind an entry depends on the entry's kind alone. */
  function Kinds(nodes: seq<Kind>): Undrawn {
    Undrawn(Among(nodes, Honest), Among(nodes, Withholding), Among(nodes, Other), false)
  }

  function StateBehind(all: Undrawn, entry: Kind, leftOut: nat): Undrawn
    requires Count(all, entry) > 0 && leftOut <= all.honest
  {
    match entry
    case Honest => Undrawn(all.honest - 1, 0, all.others, true)
    case Withholding => Undrawn(all.honest - leftOut, all.withholding - 1, all.others, false)
    case Other => Undrawn(all.honest - leftOut, all.withholding, all.others - 1, false)
  }

  lemma BehindCounts(nodes: seq<Kind>, i: nat, leftOut: nat, k: Kind)
    requires i < |nodes| && leftOut <= Among(nodes, Honest)
    ensures var rest := Among(nodes, k) - One(nodes[i] == k);
            Among(Behind(nodes, i, leftOut), k)
            == if nodes[i].Honest? then (if k.Withholding? then 0 else rest) else (if k.Honest? then rest - leftOut else rest)
  {
    AmongDropped(nodes, i, k);
    AmongDropped(nodes, i, Honest);
    if nodes[i].Honest? {
      AmongWithout(Drop(nodes, i), Withholding, k);
    } else {
      AmongFewer(Drop(nodes, i), leftOut, k);
    }
  }

  /** A pool with these counts is in this state. */
  lemma StateByCounts(pool: seq<Kind>, entry: Kind, at: Undrawn)
    requires Among(pool, Honest) == at.honest && Among(pool, Withholding) == at.withholding && Among(pool, Other) == at.others
    requires at.afterHonest == entry.Honest?
    ensures State(pool, [entry]) == at && |pool| == Pool(at)
  {
    AmongAll(pool);
  }

  lemma BehindState(nodes: seq<Kind>, i: nat, leftOut: nat)
    requires i < |nodes| && leftOut <= Among(nodes, Honest)
    ensures Count(Kinds(nodes), nodes[i]) > 0
    ensures State(Behind(nodes, i, leftOut), [nodes[i]]) == StateBehind(Kinds(nodes), nodes[i], leftOut)
    ensures |Behind(nodes, i, leftOut)| == Pool(StateBehind(Kinds(nodes), nodes[i], leftOut))
  {
    AmongDropped(nodes, i, nodes[i]);
    BehindCounts(nodes, i, leftOut, Honest);
    BehindCounts(nodes, i, leftOut, Withholding);
    BehindCounts(nodes, i, leftOut, Other);
    StateByCounts(Behind(nodes, i, leftOut), nodes[i], StateBehind(Kinds(nodes), nodes[i], leftOut));
  }

  // ------------------------------------------------------------- honest chains

  lemma NotAllHonest(chain: seq<Kind>, x: Kind)
    ensures Has(chain + [x], AllHonest) <==> Has(chain, AllHonest) && x.Honest?
  {
    var longer := chain + [x];
    if Has(longer, AllHonest) {
      assert longer[|chain|] == x;
      forall i | 0 <= i < |chain| ensures chain[i].Honest? {
        assert longer[i] == chain[i];
      }
    }
  }

  /** Chains of honest nodes only: so many choices without replacement among the honest ones. */
  lemma {:induction false} HonestWays(pool: seq<Kind>, chain: seq<Kind>, draws: nat)
    requires draws <= |pool|
    ensures Ways(AllHonest, pool, chain, draws) == if Has(chain, AllHonest) then Falling(Among(pool, Honest), draws) else 0
    decreases draws, |pool| + 1
  {
    if draws > 0 {
      HonestAmong(pool, chain, draws, |pool|);
      assert pool[..|pool|] == pool;
    }
  }

  lemma {:induction false} HonestAmong(pool: seq<Kind>, chain: seq<Kind>, draws: nat, k: nat)
    requires 0 < draws <= |pool| && k <= |pool|
    ensures WaysAmong(AllHonest, pool, chain, draws, k)
            == if Has(chain, AllHonest) then Among(pool[..k], Honest) * Falling(Among(pool, Honest) - 1, draws - 1) else 0
    decreases draws, k
  {
    if k > 0 {
      HonestAmong(pool, chain, draws, k - 1);
      NotAllHonest(chain, pool[k - 1]);
      HonestWays(Drop(pool, k - 1), chain + [pool[k - 1]], draws - 1);
      AmongDropped(pool, k - 1, Honest);
      assert pool[..k] == pool[..k - 1] + [pool[k - 1]];
      AmongSnoc(pool[..k - 1], pool[k - 1], Honest);
      OneMoreTimes(Among(pool[..k - 1], Honest), pool[k - 1].Honest?, Falling(Among(pool, Honest) - 1, draws - 1));
    }
  }

  lemma OneMoreTimes(a: int, more: bool, f: int)
    ensures (a + One(more)) * f == a * f + if more then f else 0
  {}

  // ------------------------------------------------------------- the reference

  predicate Accepted(entry: Kind, nodes: int, hops: int, missing: int, leftOut: int, withheld: int) {
    (if entry.Honest? then withheld else leftOut) <= Allowed(nodes, hops, missing)
  }

  /** The share of an entry's chains with an outcome. */
  function ShareOfChains(o: Outcome, pool: seq<Kind>, entry: Kind, draws: nat): real
    requires Falling(|pool|, draws) != 0
  {
    Ratio(Ways(o, pool, [entry], draws), Falling(|pool|, draws))
  }

  datatype Measure = Rising | Failing | Ends | Touched

  /** What one entry adds: both ends are rogue only behind a rogue entry, which touches every chain. */
  function Adds(m: Measure, pool: seq<Kind>, entry: Kind, draws: nat): real
    requires Falling(|pool|, draws) != 0
  {
    match m
    case Rising => ShareOfChains(Up, pool, entry, draws)
    case Failing => ShareOfChains(Fails, pool, entry, draws)
    case Ends => if entry.Honest? then 0.0 else ShareOfChains(RogueExit, pool, entry, draws)
    case Touched => ShareOfChains(Up, pool, entry, draws) - ShareOfChains(AllHonest, pool, entry, draws)
  }

  lemma {:induction false} FallingPositive(n: int, d: nat)
    requires d <= n
    ensures Falling(n, d) > 0
    decreases d
  {
    if d > 0 {
      FallingPositive(n - 1, d - 1);
    }
  }

  /** The same for every entry of a kind, from the plain recursion. */
  function Worth(m: Measure, all: Undrawn, entry: Kind, leftOut: nat, draws: nat): real
    requires Count(all, entry) > 0 && leftOut <= all.honest && draws <= Pool(StateBehind(all, entry, leftOut))
  {
    var at := StateBehind(all, entry, leftOut);
    match m
    case Rising => Plain(at, draws).comeUp
    case Failing => Plain(at, draws).failed
    case Ends => if entry.Honest? then 0.0 else Plain(at, draws).rogueExit
    case Touched => if entry.Honest? then 1.0 - Clean(at.honest, Pool(at), draws) else Plain(at, draws).comeUp
  }

  lemma RatioIs(ways: int, all: int, share: real)
    requires all != 0 && ways as real == share * all as real
    ensures Ratio(ways, all) == share
  {
    Divided(share, all as real, ways as real);
  }

  lemma ShareIsField(o: Outcome, pool: seq<Kind>, entry: Kind, draws: nat)
    requires !o.AllHonest? && draws <= |pool|
    ensures Falling(|pool|, draws) != 0 && Pool(State(pool, [entry])) == |pool|
    ensures ShareOfChains(o, pool, entry, draws) == Field(Plain(State(pool, [entry]), draws), o)
  {
    FallingPositive(|pool|, draws);
    WaysAgree(o, pool, [entry], draws);
    RatioIs(Ways(o, pool, [entry], draws), Falling(|pool|, draws), Field(Plain(State(pool, [entry]), draws), o));
  }

  lemma CleanRatio(h: int, p: int, d: nat)
    requires d <= p
    ensures Falling(p, d) != 0 && Ratio(Falling(h, d), Falling(p, d)) == Clean(h, p, d)
  {
    FallingPositive(p, d);
    CleanCounts(h, p, d);
    RatioIs(Falling(h, d), Falling(p, d), Clean(h, p, d));
  }

  lemma NoneOf(all: int)
    requires all != 0
    ensures Ratio(0, all) == 0.0
  {}

  lemma HonestShare(pool: seq<Kind>, entry: Kind, draws: nat)
    requires draws <= |pool|
    ensures Falling(|pool|, draws) != 0
    ensures ShareOfChains(AllHonest, pool, entry, draws)
            == if entry.Honest? then Clean(Among(pool, Honest), |pool|, draws) else 0.0
  {
    CleanRatio(Among(pool, Honest), |pool|, draws);
    HonestWays(pool, [entry], draws);
    assert Has([entry], AllHonest) <==> entry.Honest? by { assert [entry][0] == entry; }
    NoneOf(Falling(|pool|, draws));
  }

  lemma AddsWorth(m: Measure, nodes: seq<Kind>, i: nat, leftOut: nat, draws: nat)
    requires i < |nodes| && leftOut <= Among(nodes, Honest) && draws <= |Behind(nodes, i, leftOut)|
    ensures Falling(|Behind(nodes, i, leftOut)|, draws) != 0
    ensures Count(Kinds(nodes), nodes[i]) > 0 && draws <= Pool(StateBehind(Kinds(nodes), nodes[i], leftOut))
    ensures Adds(m, Behind(nodes, i, leftOut), nodes[i], draws) == Worth(m, Kinds(nodes), nodes[i], leftOut, draws)
  {
    var pool, entry := Behind(nodes, i, leftOut), nodes[i];
    BehindState(nodes, i, leftOut);
    ShareIsField(Up, pool, entry, draws);
    ShareIsField(Fails, pool, entry, draws);
    ShareIsField(RogueExit, pool, entry, draws);
    HonestShare(pool, entry, draws);
    if entry.Honest? {
      UpOrFailed(State(pool, [entry]), draws);
      NoneFails(State(pool, [entry]), draws);
    }
  }

  // -------------------------------------------------------------- over all entries

  predicate Ready(nodes: seq<Kind>, hops: int, missing: int, leftOut: int) {
    1 <= hops <= |nodes| && missing >= 0 && 0 <= leftOut <= Among(nodes, Honest)
  }

  predicate Serves(nodes: seq<Kind>, hops: int, missing: int, leftOut: int, entry: Kind) {
    Accepted(entry, |nodes|, hops, missing, leftOut, Among(nodes, Withholding))
  }

  /** An entry the client accepts serves enough nodes for the chain. */
  lemma AcceptedRoom(nodes: seq<Kind>, hops: int, missing: int, leftOut: int, i: nat)
    requires Ready(nodes, hops, missing, leftOut) && i < |nodes| && Serves(nodes, hops, missing, leftOut, nodes[i])
    ensures hops - 1 <= |Behind(nodes, i, leftOut)| && Falling(|Behind(nodes, i, leftOut)|, hops - 1) != 0
  {
    BehindState(nodes, i, leftOut);
    AmongAll(nodes);
    FallingPositive(|Behind(nodes, i, leftOut)|, hops - 1);
  }

  /** What the i-th node adds as an entry: nothing when its mirror is refused. */
  function Given(m: Measure, nodes: seq<Kind>, hops: int, missing: int, leftOut: int, i: nat): real
    requires Ready(nodes, hops, missing, leftOut) && i < |nodes|
  {
    if !Serves(nodes, hops, missing, leftOut, nodes[i]) then 0.0
    else
      AcceptedRoom(nodes, hops, missing, leftOut, i);
      Adds(m, Behind(nodes, i, leftOut), nodes[i], hops - 1)
  }

  function Total(m: Measure, nodes: seq<Kind>, hops: int, missing: int, leftOut: int, k: nat): real
    requires Ready(nodes, hops, missing, leftOut) && k <= |nodes|
  {
    if k == 0 then 0.0
    else Total(m, nodes, hops, missing, leftOut, k - 1) + Given(m, nodes, hops, missing, leftOut, k - 1)
  }

  function Serving(nodes: seq<Kind>, hops: int, missing: int, leftOut: int, k: nat): nat
    requires k <= |nodes|
  {
    if k == 0 then 0
    else Serving(nodes, hops, missing, leftOut, k - 1) + One(Serves(nodes, hops, missing, leftOut, nodes[k - 1]))
  }

  /** The four shares, counted: every node as an entry, every chain its mirror gives. */
  function Counted(nodes: seq<Kind>, hops: int, missing: int, leftOut: int): Shares
    requires Ready(nodes, hops, missing, leftOut)
  {
    var n := |nodes|;
    var up := Total(Rising, nodes, hops, missing, leftOut, n);
    Shares(Over(Total(Ends, nodes, hops, missing, leftOut, n), up), Over(Total(Touched, nodes, hops, missing, leftOut, n), up),
           1.0 - Ratio(Serving(nodes, hops, missing, leftOut, n), n), Total(Failing, nodes, hops, missing, leftOut, n) / n as real)
  }

  /** What each entry of a kind adds. */
  function PerEntry(m: Measure, nodes: seq<Kind>, hops: int, missing: int, leftOut: int, entry: Kind): real
    requires Ready(nodes, hops, missing, leftOut)
  {
    if Among(nodes, entry) == 0 || !Serves(nodes, hops, missing, leftOut, entry) then 0.0
    else
      AmongAll(nodes);
      Worth(m, Kinds(nodes), entry, leftOut, hops - 1)
  }

  lemma GivenPerEntry(m: Measure, nodes: seq<Kind>, hops: int, missing: int, leftOut: int, i: nat)
    requires Ready(nodes, hops, missing, leftOut) && i < |nodes|
    ensures Given(m, nodes, hops, missing, leftOut, i) == PerEntry(m, nodes, hops, missing, leftOut, nodes[i])
  {
    BehindState(nodes, i, leftOut);
    if Serves(nodes, hops, missing, leftOut, nodes[i]) {
      AcceptedRoom(nodes, hops, missing, leftOut, i);
      AddsWorth(m, nodes, i, leftOut, hops - 1);
    }
  }

  lemma {:induction false} TotalByKind(m: Measure, nodes: seq<Kind>, hops: int, missing: int, leftOut: int, k: nat)
    requires Ready(nodes, hops, missing, leftOut) && k <= |nodes|
    ensures Total(m, nodes, hops, missing, leftOut, k)
            == ByKind(nodes[..k], PerEntry(m, nodes, hops, missing, leftOut, Honest),
                      PerEntry(m, nodes, hops, missing, leftOut, Withholding), PerEntry(m, nodes, hops, missing, leftOut, Other))
    decreases k
  {
    if k > 0 {
      TotalByKind(m, nodes, hops, missing, leftOut, k - 1);
      GivenPerEntry(m, nodes, hops, missing, leftOut, k - 1);
      assert nodes[..k] == nodes[..k - 1] + [nodes[k - 1]];
      ByKindSnoc(nodes[..k - 1], nodes[k - 1], PerEntry(m, nodes, hops, missing, leftOut, Honest),
                 PerEntry(m, nodes, hops, missing, leftOut, Withholding), PerEntry(m, nodes, hops, missing, leftOut, Other));
    }
  }

  lemma {:induction false} ServingByKind(nodes: seq<Kind>, hops: int, missing: int, leftOut: int, k: nat)
    requires k <= |nodes|
    ensures Serving(nodes, hops, missing, leftOut, k)
            == (if Serves(nodes, hops, missing, leftOut, Honest) then Among(nodes[..k], Honest) else 0)
             + (if Serves(nodes, hops, missing, leftOut, Other) then Among(nodes[..k], Withholding) + Among(nodes[..k], Other) else 0)
    decreases k
  {
    if k > 0 {
      ServingByKind(nodes, hops, missing, leftOut, k - 1);
      assert nodes[..k] == nodes[..k - 1] + [nodes[k - 1]];
      AmongSnoc(nodes[..k - 1], nodes[k - 1], Honest);
      AmongSnoc(nodes[..k - 1], nodes[k - 1], Withholding);
      AmongSnoc(nodes[..k - 1], nodes[k - 1], Other);
    }
  }

  // ---------------------------------------------------- against the computed shares

  function Part3(m: Measure, c: Chains): real {
    match m
    case Rising => c.comeUp
    case Failing => c.failed
    case Ends => c.rogueExit
    case Touched => c.comeUp
  }

  /** What so many honest entries add when their chains miss the rogue nodes with this chance. */
  function FairValue(m: Measure, honest: int, clean: real): real {
    match m
    case Rising => honest as real
    case Failing => 0.0
    case Ends => 0.0
    case Touched => honest as real * (1.0 - clean)
  }

  function HonestValue(m: Measure, clean: real): real {
    match m
    case Rising => 1.0
    case Failing => 0.0
    case Ends => 0.0
    case Touched => 1.0 - clean
  }

  lemma FairScales(m: Measure, honest: int, clean: real, worth: real)
    requires worth == HonestValue(m, clean) && honest >= 0
    ensures Times(honest, worth) == FairValue(m, honest, clean)
  {
    TimesIsProduct(honest, worth);
  }

  function FairPart(m: Measure, nodes: int, hops: int, rogue: int, withheld: int, fair: bool): real
    requires 1 <= hops && (fair ==> hops <= nodes - withheld)
  {
    if fair then FairValue(m, nodes - rogue, Clean(nodes - rogue - 1, nodes - withheld - 1, hops - 1)) else 0.0
  }

  /** Every chain of an honest entry comes up. */
  lemma HonestWorth(m: Measure, all: Undrawn, leftOut: nat, draws: nat)
    requires all.honest > 0 && leftOut <= all.honest && draws <= Pool(StateBehind(all, Honest, leftOut))
    ensures Worth(m, all, Honest, leftOut, draws) == HonestValue(m, Clean(all.honest - 1, all.honest - 1 + all.others, draws))
  {
    var at := StateBehind(all, Honest, leftOut);
    UpOrFailed(at, draws);
    NoneFails(at, draws);
  }

  lemma {:induction false} NothingAdds(n: nat)
    ensures Times(n, 0.0) == 0.0
  {
    if n > 0 {
      NothingAdds(n - 1);
    }
  }

  lemma FairWeight(m: Measure, nodes: seq<Kind>, hops: int, missing: int, leftOut: int)
    requires Ready(nodes, hops, missing, leftOut)
    ensures var n, rogue, withheld := |nodes|, |nodes| - Among(nodes, Honest), Among(nodes, Withholding);
            var fair := HonestAccepted(n, hops, rogue, missing, withheld);
            && (fair ==> hops <= n - withheld)
            && Times(Among(nodes, Honest), PerEntry(m, nodes, hops, missing, leftOut, Honest))
               == FairPart(m, n, hops, rogue, withheld, fair)
  {
    AmongAll(nodes);
    var h, worth := Among(nodes, Honest), PerEntry(m, nodes, hops, missing, leftOut, Honest);
    if h > 0 && Serves(nodes, hops, missing, leftOut, Honest) {
      HonestWorth(m, Kinds(nodes), leftOut, hops - 1);
      FairScales(m, h, Clean(h - 1, |nodes| - Among(nodes, Withholding) - 1, hops - 1), worth);
    } else {
      NothingAdds(h);
    }
  }

  lemma EntriesPart(m: Measure, entries: nat, honest: nat, withholding: int, others: int, draws: nat, worth: real)
    requires entries > 0 ==> withholding >= 0 && others >= 0 && draws <= honest + withholding + others
    requires entries > 0 ==> worth == Part3(m, Plain(Undrawn(honest, withholding, others, false), draws))
    ensures Part3(m, Entries(entries, honest, withholding, others, draws)) == Times(entries, worth)
  {
    if entries > 0 {
      PartScales(m, entries, Plain(Undrawn(honest, withholding, others, false), draws));
    }
  }

  lemma PartScales(m: Measure, k: nat, c: Chains)
    ensures Part3(m, Part(k as real, c)) == Times(k, Part3(m, c))
  {
    TimesIsProduct(k, Part3(m, c));
  }

  lemma PartAdds(m: Measure, a: Chains, b: Chains)
    ensures Part3(m, Plus(a, b)) == Part3(m, a) + Part3(m, b) && Part3(m, NONE) == 0.0
  {}

  lemma RogueWorth(m: Measure, nodes: seq<Kind>, hops: int, missing: int, leftOut: int, entry: Kind)
    requires Ready(nodes, hops, missing, leftOut) && !entry.Honest? && Among(nodes, entry) > 0
    requires leftOut <= Allowed(|nodes|, hops, missing)
    ensures var at := StateBehind(Kinds(nodes), entry, leftOut);
            hops - 1 <= Pool(at) && PerEntry(m, nodes, hops, missing, leftOut, entry) == Part3(m, Plain(at, hops - 1))
  {
    AmongAll(nodes);
  }

  /** The two kinds of rogue entries, each worth the same throughout. */
  lemma RogueEntriesPart(m: Measure, nodes: int, hops: int, rogue: int, leftOut: int, withheld: nat, others: nat, x: real, y: real)
    requires 1 <= hops <= nodes - leftOut && 0 <= leftOut <= nodes - rogue && rogue == withheld + others
    requires withheld > 0 ==> x == Part3(m, Plain(Undrawn(nodes - rogue - leftOut, withheld - 1, others, false), hops - 1))
    requires others > 0 ==> y == Part3(m, Plain(Undrawn(nodes - rogue - leftOut, withheld, others - 1, false), hops - 1))
    ensures Part3(m, RogueEntries(nodes, hops, rogue, leftOut, withheld)) == Times(withheld, x) + Times(others, y)
  {
    var h, w: int, o: int := nodes - rogue - leftOut, withheld, others;
    EntriesPart(m, w, h, w - 1, o, hops - 1, x);
    EntriesPart(m, o, h, w, o - 1, hops - 1, y);
    PartAdds(m, Entries(w, h, w - 1, o, hops - 1), Entries(o, h, w, o - 1, hops - 1));
  }

  lemma RogueWeight(m: Measure, nodes: seq<Kind>, hops: int, missing: int, leftOut: int)
    requires Ready(nodes, hops, missing, leftOut)
    ensures var n, rogue, withheld := |nodes|, |nodes| - Among(nodes, Honest), Among(nodes, Withholding);
            var foul := leftOut <= Allowed(n, hops, missing);
            && 0 <= withheld <= rogue && leftOut <= n - rogue && (foul ==> hops <= n - leftOut)
            && Times(withheld, PerEntry(m, nodes, hops, missing, leftOut, Withholding))
               + Times(Among(nodes, Other), PerEntry(m, nodes, hops, missing, leftOut, Other))
               == Part3(m, if foul then RogueEntries(n, hops, rogue, leftOut, withheld) else NONE)
  {
    AmongAll(nodes);
    var n, w, o := |nodes|, Among(nodes, Withholding), Among(nodes, Other);
    if leftOut <= Allowed(n, hops, missing) {
      if w > 0 { RogueWorth(m, nodes, hops, missing, leftOut, Withholding); }
      if o > 0 { RogueWorth(m, nodes, hops, missing, leftOut, Other); }
      RogueEntriesPart(m, n, hops, n - Among(nodes, Honest), leftOut, w, o,
                       PerEntry(m, nodes, hops, missing, leftOut, Withholding), PerEntry(m, nodes, hops, missing, leftOut, Other));
    } else {
      PartAdds(m, NONE, NONE);
      NothingAdds(w);
      NothingAdds(o);
    }
  }

  lemma TotalParts(m: Measure, nodes: seq<Kind>, hops: int, missing: int, leftOut: int)
    requires Ready(nodes, hops, missing, leftOut)
    ensures var n, rogue, withheld := |nodes|, |nodes| - Among(nodes, Honest), Among(nodes, Withholding);
            var fair, foul := HonestAccepted(n, hops, rogue, missing, withheld), leftOut <= Allowed(n, hops, missing);
            && 0 <= withheld <= rogue && leftOut <= n - rogue && (fair ==> hops <= n - withheld) && (foul ==> hops <= n - leftOut)
            && Total(m, nodes, hops, missing, leftOut, n)
               == FairPart(m, n, hops, rogue, withheld, fair)
                + Part3(m, if foul then RogueEntries(n, hops, rogue, leftOut, withheld) else NONE)
  {
    var n, rogue, withheld := |nodes|, |nodes| - Among(nodes, Honest), Among(nodes, Withholding);
    var fair, foul := HonestAccepted(n, hops, rogue, missing, withheld), leftOut <= Allowed(n, hops, missing);
    TotalByKind(m, nodes, hops, missing, leftOut, n);
    assert nodes[..n] == nodes;
    FairWeight(m, nodes, hops, missing, leftOut);
    RogueWeight(m, nodes, hops, missing, leftOut);
  }

  lemma ServingAll(nodes: seq<Kind>, hops: int, missing: int, leftOut: int)
    requires Ready(nodes, hops, missing, leftOut)
    ensures var n, rogue, withheld := |nodes|, |nodes| - Among(nodes, Honest), Among(nodes, Withholding);
            Serving(nodes, hops, missing, leftOut, n)
            == FairUp(n, rogue, HonestAccepted(n, hops, rogue, missing, withheld)) + (if leftOut <= Allowed(n, hops, missing) then rogue else 0)
  {
    ServingByKind(nodes, hops, missing, leftOut, |nodes|);
    assert nodes[..|nodes|] == nodes;
    AmongAll(nodes);
  }

  /** The totals, put together from their parts. */
  lemma TotalsOf(up: real, any: real, c: Chains, accepted: int, n: int, rising: real, failing: real, ends: real, touched: real)
    requires n > 0 && rising == up + c.comeUp && failing == c.failed && ends == c.rogueExit && touched == any + c.comeUp
    ensures Totals(up, any, c, accepted, n) == Shares(Over(ends, rising), Over(touched, rising), 1.0 - Ratio(accepted, n), failing / n as real)
  {}

  lemma FairParts(nodes: int, hops: int, rogue: int, withheld: int, fair: bool)
    requires 1 <= hops && (fair ==> hops <= nodes - withheld)
    ensures FairPart(Rising, nodes, hops, rogue, withheld, fair) == FairUp(nodes, rogue, fair) as real
    ensures FairPart(Failing, nodes, hops, rogue, withheld, fair) == 0.0
    ensures FairPart(Ends, nodes, hops, rogue, withheld, fair) == 0.0
    ensures FairPart(Touched, nodes, hops, rogue, withheld, fair) == FairTouched(nodes, hops, rogue, withheld, fair)
  {}

  lemma MirrorUnfolds(nodes: int, hops: int, rogue: int, missing: int, leftOut: int, withheld: int)
    requires Configured(nodes, hops, rogue, missing, leftOut, withheld)
    ensures var fair, foul := HonestAccepted(nodes, hops, rogue, missing, withheld), leftOut <= Allowed(nodes, hops, missing);
            && (fair ==> hops <= nodes - withheld) && (foul ==> hops <= nodes - leftOut)
            && Mirror(nodes, hops, rogue, missing, leftOut, withheld)
               == Some(Totals(FairUp(nodes, rogue, fair) as real, FairTouched(nodes, hops, rogue, withheld, fair),
                              if foul then RogueEntries(nodes, hops, rogue, leftOut, withheld) else NONE,
                              FairUp(nodes, rogue, fair) + (if foul then rogue else 0), nodes))
  {}

  /** The counted totals, given the parts they are made of. */
  lemma CountedTotals(nodes: seq<Kind>, hops: int, missing: int, leftOut: int, up: real, any: real, c: Chains, accepted: int)
    requires Ready(nodes, hops, missing, leftOut) && accepted == Serving(nodes, hops, missing, leftOut, |nodes|)
    requires Total(Rising, nodes, hops, missing, leftOut, |nodes|) == up + c.comeUp
    requires Total(Failing, nodes, hops, missing, leftOut, |nodes|) == c.failed
    requires Total(Ends, nodes, hops, missing, leftOut, |nodes|) == c.rogueExit
    requires Total(Touched, nodes, hops, missing, leftOut, |nodes|) == any + c.comeUp
    ensures Counted(nodes, hops, missing, leftOut) == Totals(up, any, c, accepted, |nodes|)
  {
    var n := |nodes|;
    TotalsOf(up, any, c, accepted, n,
             Total(Rising, nodes, hops, missing, leftOut, n), Total(Failing, nodes, hops, missing, leftOut, n),
             Total(Ends, nodes, hops, missing, leftOut, n), Total(Touched, nodes, hops, missing, leftOut, n));
  }

  /** Each total is what the honest entries add and what the rogue ones add. */
  ghost predicate MadeOf(nodes: seq<Kind>, hops: int, missing: int, leftOut: int, up: real, any: real, c: Chains)
    requires Ready(nodes, hops, missing, leftOut)
  {
    && Total(Rising, nodes, hops, missing, leftOut, |nodes|) == up + c.comeUp
    && Total(Failing, nodes, hops, missing, leftOut, |nodes|) == c.failed
    && Total(Ends, nodes, hops, missing, leftOut, |nodes|) == c.rogueExit
    && Total(Touched, nodes, hops, missing, leftOut, |nodes|) == any + c.comeUp
  }

  lemma TotalsMadeOf(nodes: seq<Kind>, hops: int, missing: int, leftOut: int)
    requires Ready(nodes, hops, missing, leftOut)
    ensures var n, rogue, withheld := |nodes|, |nodes| - Among(nodes, Honest), Among(nodes, Withholding);
            var fair, foul := HonestAccepted(n, hops, rogue, missing, withheld), leftOut <= Allowed(n, hops, missing);
            && 0 <= withheld <= rogue && leftOut <= n - rogue && (fair ==> hops <= n - withheld) && (foul ==> hops <= n - leftOut)
            && MadeOf(nodes, hops, missing, leftOut, FairUp(n, rogue, fair) as real, FairTouched(n, hops, rogue, withheld, fair),
                      if foul then RogueEntries(n, hops, rogue, leftOut, withheld) else NONE)
  {
    TotalParts(Rising, nodes, hops, missing, leftOut);
    TotalParts(Failing, nodes, hops, missing, leftOut);
    TotalParts(Ends, nodes, hops, missing, leftOut);
    TotalParts(Touched, nodes, hops, missing, leftOut);
    var n, rogue, withheld := |nodes|, |nodes| - Among(nodes, Honest), Among(nodes, Withholding);
    FairParts(n, hops, rogue, withheld, HonestAccepted(n, hops, rogue, missing, withheld));
  }

  /**
   For every list of honest, withholding and other rogue nodes, what
   MirrorCompromiseProbability computes is what counting every entry and every
   chain gives.
   */
  lemma MirrorCountsEveryChain(nodes: seq<Kind>, hops: int, missing: int, leftOut: int)
    requires Ready(nodes, hops, missing, leftOut)
    ensures Mirror(|nodes|, hops, |nodes| - Among(nodes, Honest), missing, leftOut, Among(nodes, Withholding))
            == Some(Counted(nodes, hops, missing, leftOut))
  {
    var n, rogue, withheld := |nodes|, |nodes| - Among(nodes, Honest), Among(nodes, Withholding);
    var fair, foul := HonestAccepted(n, hops, rogue, missing, withheld), leftOut <= Allowed(n, hops, missing);
    TotalsMadeOf(nodes, hops, missing, leftOut);
    ServingAll(nodes, hops, missing, leftOut);
    MirrorUnfolds(n, hops, rogue, missing, leftOut, withheld);
    CountedTotals(nodes, hops, missing, leftOut, FairUp(n, rogue, fair) as real, FairTouched(n, hops, rogue, withheld, fair),
                  if foul then RogueEntries(n, hops, rogue, leftOut, withheld) else NONE,
                  FairUp(n, rogue, fair) + (if foul then rogue else 0));
  }
}
