/** Compromise under uniform choice and under mirrors that leave nodes out (lab/metrics/compromise.go). */
module Mirrors {
  import opened Results
  import opened Compromise
  import EveryChain

  function Ratio(a: int, b: int): real
    requires b != 0
  {
    a as real / b as real
  }

  /** The chance that k draws without replacement all fall among a out of b. */
  function Clean(a: int, b: int, k: nat): real
    requires k <= b
  {
    if k == 0 then 1.0 else Clean(a, b, k - 1) * Ratio(a - (k - 1), b - (k - 1))
  }

  method CleanProduct(a: int, b: int, k: nat) returns (clean: real)
    requires k <= b
    ensures clean == Clean(a, b, k)
  {
    clean := 1.0;
    for i := 0 to k
      invariant clean == Clean(a, b, i)
    {
      clean := clean * Ratio(a - i, b - i);
    }
  }

  function Max(x: int, y: int): int {
    if x >= y then x else y
  }

  function Min(x: int, y: int): int {
    if x <= y then x else y
  }

  /** Both ends rogue, and any node rogue. */
  datatype Odds = Odds(ends: real, touched: real)

  predicate Choosable(nodes: int, hops: int, rogue: int) {
    1 <= hops <= nodes && 0 <= rogue <= nodes
  }

  function BothEnds(nodes: int, hops: int, rogue: int): real
    requires Choosable(nodes, hops, rogue)
  {
    if hops > 1 then Ratio(rogue * Max(rogue - 1, 0), nodes * (nodes - 1)) else Ratio(rogue, nodes)
  }

  function Uniform(nodes: int, hops: int, rogue: int): Option<Odds> {
    if !Choosable(nodes, hops, rogue) then None
    else Some(Odds(BothEnds(nodes, hops, rogue), 1.0 - Clean(nodes - rogue, nodes, hops)))
  }

  method CompromiseProbability(nodes: int, hops: int, rogue: int) returns (r: Option<Odds>)
    ensures r == Uniform(nodes, hops, rogue)
  {
    if hops < 1 || hops > nodes || rogue < 0 || rogue > nodes {
      return None;
    }
    var ends := Ratio(rogue, nodes);
    if hops > 1 {
      ends := Ratio(rogue * Max(rogue - 1, 0), nodes * (nodes - 1));
    }
    var clean := CleanProduct(nodes - rogue, nodes, hops);
    r := Some(Odds(ends, 1.0 - clean));
  }

  // -------------------------------------------------------------------- mirrors

  datatype Shares = Shares(ends: Option<real>, touched: Option<real>, refused: real, failed: real)

  predicate Configured(nodes: int, hops: int, rogue: int, missing: int, leftOut: int, withheld: int) {
    && 1 <= hops <= nodes && missing >= 0
    && 0 <= leftOut <= nodes - rogue && 0 <= withheld <= rogue
  }

  /** 0/0 is undefined. */
  function Over(a: real, b: real): Option<real> {
    if b == 0.0 then None else Some(a / b)
  }

  /** What so many rogue entries of one kind contribute. */
  function Entries(entries: nat, honest: nat, withholding: int, others: int, draws: nat): Chains
    requires entries > 0 ==> withholding >= 0 && others >= 0 && draws <= honest + withholding + others
  {
    if entries == 0 then NONE else Part(entries as real, Plain(Undrawn(honest, withholding, others, false), draws))
  }

  /** Both kinds of rogue entries together; an entry is not in its own pool. */
  function RogueEntries(nodes: int, hops: int, rogue: int, leftOut: int, withheld: int): Chains
    requires 1 <= hops <= nodes - leftOut && 0 <= leftOut <= nodes - rogue && 0 <= withheld <= rogue
  {
    Plus(Entries(withheld, nodes - rogue - leftOut, withheld - 1, rogue - withheld, hops - 1),
         Entries(rogue - withheld, nodes - rogue - leftOut, withheld, rogue - 1 - withheld, hops - 1))
  }

  function Allowed(nodes: int, hops: int, missing: int): int {
    Min(missing, nodes - hops)
  }

  function HonestAccepted(nodes: int, hops: int, rogue: int, missing: int, withheld: int): bool {
    nodes - rogue > 0 && withheld <= Allowed(nodes, hops, missing)
  }

  function Totals(up: real, any: real, rogueChains: Chains, accepted: int, nodes: int): Shares
    requires nodes > 0
  {
    Shares(Over(rogueChains.rogueExit, up + rogueChains.comeUp), Over(any + rogueChains.comeUp, up + rogueChains.comeUp),
           1.0 - Ratio(accepted, nodes), rogueChains.failed / nodes as real)
  }

  /** Entries accepted, honest and rogue, and what the honest ones contribute. */
  function FairUp(nodes: int, rogue: int, fair: bool): int {
    if fair then nodes - rogue else 0
  }

  function FairTouched(nodes: int, hops: int, rogue: int, withheld: int, fair: bool): real
    requires 1 <= hops && (fair ==> hops <= nodes - withheld)
  {
    if fair then (nodes - rogue) as real * (1.0 - Clean(nodes - rogue - 1, nodes - withheld - 1, hops - 1)) else 0.0
  }

  function Mirror(nodes: int, hops: int, rogue: int, missing: int, leftOut: int, withheld: int): Option<Shares> {
    if !Configured(nodes, hops, rogue, missing, leftOut, withheld) then None
    else
      var fair := HonestAccepted(nodes, hops, rogue, missing, withheld);
      var foul := leftOut <= Allowed(nodes, hops, missing);
      Some(Totals(FairUp(nodes, rogue, fair) as real,
                  FairTouched(nodes, hops, rogue, withheld, fair),
                  if foul then RogueEntries(nodes, hops, rogue, leftOut, withheld) else NONE,
                  FairUp(nodes, rogue, fair) + (if foul then rogue else 0), nodes))
  }

  method EntryShares(entries: nat, honest: nat, withholding: int, others: int, draws: nat) returns (sum: Chains)
    requires entries > 0 ==> withholding >= 0 && others >= 0 && draws <= honest + withholding + others
    ensures sum == Entries(entries, honest, withholding, others, draws)
  {
    if entries == 0 {
      return NONE;
    }
    var chains := RogueEntryChains(honest, withholding, others, draws);
    sum := Part(entries as real, chains);
  }

  method MirrorCompromiseProbability(nodes: int, hops: int, rogue: int, missing: int, leftOut: int, withheld: int)
    returns (r: Option<Shares>)
    ensures r == Mirror(nodes, hops, rogue, missing, leftOut, withheld)
  {
    var honest := nodes - rogue;
    if hops < 1 || hops > nodes || missing < 0 || leftOut < 0 || leftOut > honest || withheld < 0 || withheld > rogue {
      return None;
    }
    var accepted, up, any, chains := Tally(nodes, hops, rogue, missing, leftOut, withheld);
    r := Some(Totals(up, any, chains, accepted, nodes));
  }

  method Tally(nodes: int, hops: int, rogue: int, missing: int, leftOut: int, withheld: int)
    returns (accepted: int, up: real, any: real, chains: Chains)
    requires Configured(nodes, hops, rogue, missing, leftOut, withheld)
    ensures var fair, foul := HonestAccepted(nodes, hops, rogue, missing, withheld), leftOut <= Allowed(nodes, hops, missing);
            && accepted == FairUp(nodes, rogue, fair) + (if foul then rogue else 0)
            && up == FairUp(nodes, rogue, fair) as real
            && any == FairTouched(nodes, hops, rogue, withheld, fair)
            && chains == if foul then RogueEntries(nodes, hops, rogue, leftOut, withheld) else NONE
  {
    var allowed := Min(missing, nodes - hops);
    accepted, up, any := FairTally(nodes, hops, rogue, withheld, nodes - rogue > 0 && withheld <= allowed);
    chains := NONE;
    if leftOut <= allowed {
      accepted := accepted + rogue;
      chains := RogueShares(nodes, hops, rogue, leftOut, withheld);
    }
  }

  method FairTally(nodes: int, hops: int, rogue: int, withheld: int, fair: bool) returns (accepted: int, up: real, any: real)
    requires 1 <= hops && (fair ==> hops <= nodes - withheld)
    ensures accepted == FairUp(nodes, rogue, fair) && up == FairUp(nodes, rogue, fair) as real
    ensures any == FairTouched(nodes, hops, rogue, withheld, fair)
  {
    accepted, up, any := 0, 0.0, 0.0;
    if fair {
      var clean := CleanProduct(nodes - rogue - 1, nodes - withheld - 1, hops - 1);
      accepted, up, any := nodes - rogue, (nodes - rogue) as real, (nodes - rogue) as real * (1.0 - clean);
    }
  }

  method RogueShares(nodes: int, hops: int, rogue: int, leftOut: int, withheld: int) returns (sum: Chains)
    requires 1 <= hops <= nodes - leftOut && 0 <= leftOut <= nodes - rogue && 0 <= withheld <= rogue
    ensures sum == RogueEntries(nodes, hops, rogue, leftOut, withheld)
  {
    var first := EntryShares(withheld, nodes - rogue - leftOut, withheld - 1, rogue - withheld, hops - 1);
    var second := EntryShares(rogue - withheld, nodes - rogue - leftOut, withheld, rogue - 1 - withheld, hops - 1);
    sum := Plus(first, second);
  }

  // --------------------------------------------------- full mirrors, fair choice

  lemma {:induction false} CleanHead(a: int, b: int, k: nat)
    requires k < b
    ensures Clean(a, b, k + 1) == Ratio(a, b) * Clean(a - 1, b - 1, k)
    decreases k
  {
    if k > 0 {
      CleanHead(a, b, k - 1);
      Regroup(Ratio(a, b), Clean(a - 1, b - 1, k - 1), Ratio(a - k, b - k));
    } else {
      assert Clean(a, b, 0) == 1.0;
    }
  }

  lemma Regroup(x: real, y: real, z: real)
    ensures (x * y) * z == x * (y * z)
  {}

  /** The product counts choices: of all ordered choices of k out of b, this share stays among the a. */
  lemma {:induction false} CleanCounts(a: int, b: int, k: nat)
    requires k <= b
    ensures Clean(a, b, k) * EveryChain.Falling(b, k) as real == EveryChain.Falling(a, k) as real
    decreases k
  {
    if k > 0 {
      CleanHead(a, b, k - 1);
      CleanCounts(a - 1, b - 1, k - 1);
      CountsHead(a, b, Clean(a, b, k), Clean(a - 1, b - 1, k - 1),
                 EveryChain.Falling(b - 1, k - 1), EveryChain.Falling(a - 1, k - 1));
    }
  }

  lemma CountsHead(a: int, b: int, c: real, d: real, f: int, g: int)
    requires b != 0 && c == Ratio(a, b) * d && d * f as real == g as real
    ensures c * (b * f) as real == (a * g) as real
  {
    var x := Ratio(a, b);
    assert x * b as real == a as real;
    assert (b * f) as real == b as real * f as real && (a * g) as real == a as real * g as real;
    assert (x * d) * (b as real * f as real) == (x * b as real) * (d * f as real);
  }

  lemma Divided(a: real, k: real, x: real)
    requires k != 0.0 && a * k == x
    ensures x / k == a
  {}

  lemma OverIs(a: real, b: real, x: real)
    requires b != 0.0 && x * b == a
    ensures Over(a, b) == Some(x)
  {
    Divided(x, b, a);
  }

  lemma SecondEnd(k: real, n: real)
    requires n > 1.0
    ensures n * (n - 1.0) != 0.0 && k * ((k - 1.0) / (n - 1.0)) == (k * (k - 1.0)) / (n * (n - 1.0)) * n
  {
    Fractions(k, n, k - 1.0, n - 1.0);
    var x, y := k / n, (k - 1.0) / (n - 1.0);
    assert x * n == k;
    assert (x * y) * n == (x * n) * y;
  }

  lemma ProductAsReal(a: int, b: int)
    ensures (a * b) as real == a as real * b as real
  {}

  lemma RatioOfProducts(k: int, n: int)
    requires n > 1
    ensures n * (n - 1) != 0
    ensures Ratio(k * (k - 1), n * (n - 1)) * n as real == k as real * Ratio(k - 1, n - 1)
  {
    ProductAsReal(k, k - 1);
    ProductAsReal(n, n - 1);
    SecondEnd(k as real, n as real);
  }

  lemma RatioTimes(k: int, n: int)
    requires n != 0
    ensures Ratio(k, n) * n as real == k as real
  {}

  /** What the chains of all rogue entries come to when every one comes up. */
  ghost predicate FullChains(nodes: int, rogue: int, ends: real, c: Chains) {
    c.comeUp == rogue as real && c.failed == 0.0 && c.rogueExit == ends * nodes as real
  }

  lemma FullScaled(nodes: int, hops: int, rogue: int, c: Chains)
    requires Choosable(nodes, hops, rogue) && rogue > 0 && c.comeUp == 1.0 && c.failed == 0.0
    requires c.rogueExit == if hops > 1 then Ratio(rogue - 1, nodes - 1) else 1.0
    ensures FullChains(nodes, rogue, BothEnds(nodes, hops, rogue), Plus(NONE, Part(rogue as real, c)))
  {
    if hops > 1 {
      RatioOfProducts(rogue, nodes);
    } else {
      RatioTimes(rogue, nodes);
    }
  }

  lemma PlainFull(honest: nat, others: nat, draws: nat)
    requires draws <= honest + others
    ensures var c := Plain(Undrawn(honest, 0, others, false), draws);
            c.comeUp == 1.0 && c.failed == 0.0 && c.rogueExit == if draws > 0 then Ratio(others, honest + others) else 1.0
  {
    var at := Undrawn(honest, 0, others, false);
    NoneFails(at, draws);
    UpOrFailed(at, draws);
    LastLikeFirst(at, draws);
  }

  lemma FullRogueEntries(nodes: int, hops: int, rogue: int)
    requires Choosable(nodes, hops, rogue)
    ensures FullChains(nodes, rogue, BothEnds(nodes, hops, rogue), RogueEntries(nodes, hops, rogue, 0, 0))
  {
    if rogue > 0 {
      PlainFull(nodes - rogue, rogue - 1, hops - 1);
      FullScaled(nodes, hops, rogue, Plain(Undrawn(nodes - rogue, 0, rogue - 1, false), hops - 1));
    } else {
      NoRogue(nodes, hops);
    }
  }

  lemma NoRogue(nodes: int, hops: int)
    requires Choosable(nodes, hops, 0)
    ensures BothEnds(nodes, hops, 0) == 0.0
  {
    assert hops > 1 ==> 0 * Max(0 - 1, 0) == 0;
  }

  lemma TouchedShare(honest: int, rogue: int, nodes: int, clean: real)
    requires nodes == honest + rogue && nodes > 0
    ensures (1.0 - Ratio(honest, nodes) * clean) * nodes as real == honest as real * (1.0 - clean) + rogue as real
  {
    var x, h, n := Ratio(honest, nodes), honest as real, nodes as real;
    RatioTimes(honest, nodes);
    Regroup(x, clean, n);
    Regroup(x, n, clean);
    assert (1.0 - x * clean) * n == n - (x * clean) * n;
  }

  /** Shares over as many entries as there are nodes. */
  lemma TotalsOverAll(up: real, any: real, c: Chains, nodes: int, ends: real, touched: real)
    requires nodes > 0 && up + c.comeUp == nodes as real && c.failed == 0.0
    requires ends * nodes as real == c.rogueExit && touched * nodes as real == any + c.comeUp
    ensures Totals(up, any, c, nodes, nodes) == Shares(Some(ends), Some(touched), 0.0, 0.0)
  {
    OverIs(c.rogueExit, nodes as real, ends);
    OverIs(any + c.comeUp, nodes as real, touched);
    RatioTimes(nodes, nodes);
  }

  /** What the honest entries contribute when the others of a chain miss the rogue nodes with this chance. */
  ghost predicate FairShare(nodes: int, rogue: int, any: real, clean: real, others: real) {
    clean == Misses(nodes - rogue, nodes, others) && any == Touches(nodes - rogue, others)
  }

  /** The first misses, and so do the others. */
  function Misses(honest: int, nodes: int, others: real): real {
    if nodes == 0 then 0.0 else Ratio(honest, nodes) * others
  }

  function Touches(honest: int, others: real): real {
    honest as real * (1.0 - others)
  }

  lemma FullTotals(nodes: int, rogue: int, any: real, c: Chains, ends: real, clean: real, others: real)
    requires nodes > 0 && FullChains(nodes, rogue, ends, c) && FairShare(nodes, rogue, any, clean, others)
    ensures Totals((nodes - rogue) as real, any, c, nodes, nodes) == Shares(Some(ends), Some(1.0 - clean), 0.0, 0.0)
  {
    TouchedShare(nodes - rogue, rogue, nodes, others);
    TotalsOverAll((nodes - rogue) as real, any, c, nodes, ends, 1.0 - clean);
  }

  lemma FairIsAll(nodes: int, hops: int, rogue: int, missing: int)
    requires Choosable(nodes, hops, rogue) && missing >= 0
    ensures var fair, honest := HonestAccepted(nodes, hops, rogue, missing, 0), nodes - rogue;
            && FairTouched(nodes, hops, rogue, 0, fair) == Touches(honest, Clean(honest - 1, nodes - 1, hops - 1))
            && Mirror(nodes, hops, rogue, missing, 0, 0)
               == Some(Totals(honest as real, FairTouched(nodes, hops, rogue, 0, fair), RogueEntries(nodes, hops, rogue, 0, 0), nodes, nodes))
  {}

  lemma CleanMisses(honest: int, nodes: int, hops: nat)
    requires 1 <= hops <= nodes
    ensures Clean(honest, nodes, hops) == Misses(honest, nodes, Clean(honest - 1, nodes - 1, hops - 1))
  {
    CleanHead(honest, nodes, hops - 1);
  }

  /**
   If no node is left out and no descriptor kept back, all mirrors are full: the
   client accepts every entry, no chain is lost, and the odds are the uniform ones.
   */
  lemma FullMirrorsAreUniform(nodes: int, hops: int, rogue: int, missing: int)
    requires Choosable(nodes, hops, rogue) && missing >= 0
    ensures var u := Uniform(nodes, hops, rogue).value;
            Mirror(nodes, hops, rogue, missing, 0, 0) == Some(Shares(Some(u.ends), Some(u.touched), 0.0, 0.0))
  {
    var any := FairTouched(nodes, hops, rogue, 0, HonestAccepted(nodes, hops, rogue, missing, 0));
    FairIsAll(nodes, hops, rogue, missing);
    FullRogueEntries(nodes, hops, rogue);
    CleanMisses(nodes - rogue, nodes, hops);
    FullTotals(nodes, rogue, any, RogueEntries(nodes, hops, rogue, 0, 0), BothEnds(nodes, hops, rogue),
               Clean(nodes - rogue, nodes, hops), Clean(nodes - rogue - 1, nodes - 1, hops - 1));
  }
}
