/** How many chains rogue nodes hold both ends of (lab/metrics/compromise.go), on exact numbers. */
module Compromise {
  import opened Results

  // ------------------------------------------------- the chains of a rogue entry

  /** The nodes not yet drawn, by kind, and whether the last one drawn is honest. */
  datatype Undrawn = Undrawn(honest: nat, withholding: nat, others: nat, afterHonest: bool)

  /** Three shares of one entry's chains; the third is a part of the first. */
  datatype Chains = Chains(comeUp: real, failed: real, rogueExit: real)

  const NONE := Chains(0.0, 0.0, 0.0)

  function Pool(at: Undrawn): nat {
    at.honest + at.withholding + at.others
  }

  function Plus(a: Chains, b: Chains): Chains {
    Chains(a.comeUp + b.comeUp, a.failed + b.failed, a.rogueExit + b.rogueExit)
  }

  function Part(share: real, a: Chains): Chains {
    Chains(share * a.comeUp, share * a.failed, share * a.rogueExit)
  }

  function Share(count: nat, pool: nat): real
    requires pool > 0
  {
    count as real / pool as real
  }

  function Last(afterHonest: bool): Chains {
    Chains(1.0, 0.0, if afterHonest then 0.0 else 1.0)
  }

  datatype Kind = Honest | Withholding | Other

  function Count(at: Undrawn, k: Kind): nat {
    match k
    case Honest => at.honest
    case Withholding => at.withholding
    case Other => at.others
  }

  function Draw(at: Undrawn, k: Kind): (next: Undrawn)
    requires Count(at, k) > 0
    ensures Pool(next) == Pool(at) - 1 && next.afterHonest == k.Honest?
  {
    match k
    case Honest => Undrawn(at.honest - 1, at.withholding, at.others, true)
    case Withholding => Undrawn(at.honest, at.withholding - 1, at.others, false)
    case Other => Undrawn(at.honest, at.withholding, at.others - 1, false)
  }

  /** The plain recursion, without a memo. */
  function Plain(at: Undrawn, draws: nat): Chains
    requires draws <= Pool(at)
    decreases draws, 1
  {
    if draws == 0 then Last(at.afterHonest)
    else Plus(Plus(PartOf(at, Honest, draws), PartOf(at, Withholding, draws)), PartOf(at, Other, draws))
  }

  /** What drawing a node of one kind contributes: a withholding node after an honest one is a failure. */
  function PartOf(at: Undrawn, k: Kind, draws: nat): Chains
    requires 0 < draws <= Pool(at)
    decreases draws, 0
  {
    if k.Withholding? && at.afterHonest then Chains(0.0, Share(at.withholding, Pool(at)), 0.0)
    else if Count(at, k) == 0 then NONE
    else Part(Share(Count(at, k), Pool(at)), Plain(Draw(at, k), draws - 1))
  }

  /** Every memo entry is right for the draws its pool leaves: they differ by the same number throughout. */
  ghost predicate Right(known: map<Undrawn, Chains>, spare: int) {
    forall at :: at in known ==> Pool(at) >= spare >= 0 && known[at] == Plain(at, Pool(at) - spare)
  }

  lemma StaysRight(known: map<Undrawn, Chains>, at: Undrawn, draws: nat, sum: Chains)
    requires 0 < draws <= Pool(at) && Right(known, Pool(at) - draws)
    requires sum == Plus(Plus(PartOf(at, Honest, draws), PartOf(at, Withholding, draws)), PartOf(at, Other, draws))
    ensures sum == Plain(at, draws) && Right(known[at := sum], Pool(at) - draws)
  {}

  /** The recursion with its memo, which does not know the draws. */
  class Memo {
    var known: map<Undrawn, Chains>

    constructor ()
      ensures known == map[]
    {
      known := map[];
    }

    method Add(at: Undrawn, k: Kind, draws: nat) returns (part: Chains)
      requires 0 < draws <= Pool(at) && Right(known, Pool(at) - draws)
      modifies this
      ensures part == PartOf(at, k, draws)
      ensures Right(known, Pool(at) - draws)
      decreases draws, 0
    {
      if k.Withholding? && at.afterHonest {
        return Chains(0.0, Share(at.withholding, Pool(at)), 0.0);
      }
      if Count(at, k) == 0 {
        return NONE;
      }
      var chains := From(Draw(at, k), draws - 1);
      part := Part(Share(Count(at, k), Pool(at)), chains);
    }

    method From(at: Undrawn, draws: nat) returns (sum: Chains)
      requires draws <= Pool(at) && Right(known, Pool(at) - draws)
      modifies this
      ensures sum == Plain(at, draws)
      ensures Right(known, Pool(at) - draws)
      decreases draws, 1
    {
      if draws == 0 {
        return Last(at.afterHonest);
      }
      if at in known {
        return known[at];
      }
      var h := Add(at, Honest, draws);
      var w := Add(at, Withholding, draws);
      var o := Add(at, Other, draws);
      sum := Plus(Plus(h, w), o);
      StaysRight(known, at, draws, sum);
      known := known[at := sum];
    }
  }

  method RogueEntryChains(honest: nat, withholding: nat, others: nat, draws: nat) returns (sum: Chains)
    requires draws <= honest + withholding + others
    ensures sum == Plain(Undrawn(honest, withholding, others, false), draws)
  {
    var memo := new Memo();
    sum := memo.From(Undrawn(honest, withholding, others, false), draws);
  }

  // ------------------------------------------------------- what the shares sum to

  lemma ShareTimes(n: nat, p: nat)
    requires p > 0
    ensures Share(n, p) * p as real == n as real && (n == 0 ==> Share(n, p) == 0.0)
  {}

  lemma WholeOf(t: real, p: real)
    requires p != 0.0 && t * p == p
    ensures t == 1.0
  {
    assert (t - 1.0) * p == 0.0;
  }

  lemma SharesSum(at: Undrawn)
    requires Pool(at) > 0
    ensures Share(at.honest, Pool(at)) + Share(at.withholding, Pool(at)) + Share(at.others, Pool(at)) == 1.0
    ensures at.honest == 0 ==> Share(at.honest, Pool(at)) == 0.0
    ensures at.withholding == 0 ==> Share(at.withholding, Pool(at)) == 0.0
    ensures at.others == 0 ==> Share(at.others, Pool(at)) == 0.0
  {
    var p, x, y, z := Pool(at) as real, Share(at.honest, Pool(at)), Share(at.withholding, Pool(at)), Share(at.others, Pool(at));
    ShareTimes(at.honest, Pool(at));
    ShareTimes(at.withholding, Pool(at));
    ShareTimes(at.others, Pool(at));
    ThreeShares(x, y, z, p, at.honest as real, at.withholding as real, at.others as real);
  }

  lemma ThreeShares(x: real, y: real, z: real, p: real, a: real, b: real, c: real)
    requires x * p == a && y * p == b && z * p == c && a + b + c == p && p != 0.0
    ensures x + y + z == 1.0
  {
    var t := x + y + z;
    assert t * p == p;
    WholeOf(t, p);
  }

  lemma PartSums(share: real, a: Chains)
    requires a.comeUp + a.failed == 1.0
    ensures Part(share, a).comeUp + Part(share, a).failed == share
  {
    assert share * a.comeUp + share * a.failed == share * (a.comeUp + a.failed);
  }

  lemma PartUpOrFailed(at: Undrawn, k: Kind, draws: nat)
    requires 0 < draws <= Pool(at)
    requires Count(at, k) > 0 ==> Plain(Draw(at, k), draws - 1).comeUp + Plain(Draw(at, k), draws - 1).failed == 1.0
    ensures PartOf(at, k, draws).comeUp + PartOf(at, k, draws).failed == Share(Count(at, k), Pool(at))
  {
    SharesSum(at);
    if Count(at, k) > 0 {
      PartSums(Share(Count(at, k), Pool(at)), Plain(Draw(at, k), draws - 1));
    }
  }

  /** Every chain comes up or fails. */
  lemma {:induction false} UpOrFailed(at: Undrawn, draws: nat)
    requires draws <= Pool(at)
    ensures Plain(at, draws).comeUp + Plain(at, draws).failed == 1.0
    decreases draws
  {
    if draws > 0 {
      SharesSum(at);
      forall k ensures PartOf(at, k, draws).comeUp + PartOf(at, k, draws).failed == Share(Count(at, k), Pool(at)) {
        if Count(at, k) > 0 {
          UpOrFailed(Draw(at, k), draws - 1);
        }
        PartUpOrFailed(at, k, draws);
      }
      assert PartOf(at, Honest, draws).comeUp + PartOf(at, Honest, draws).failed == Share(at.honest, Pool(at));
      assert PartOf(at, Withholding, draws).comeUp + PartOf(at, Withholding, draws).failed == Share(at.withholding, Pool(at));
      assert PartOf(at, Other, draws).comeUp + PartOf(at, Other, draws).failed == Share(at.others, Pool(at));
    }
  }

  // --------------------------------------------------------- nobody withholding

  lemma Fractions(a: real, b: real, c: real, d: real)
    requires b != 0.0 && d != 0.0
    ensures b * d != 0.0 && (a / b) * (c / d) == (a * c) / (b * d)
  {
    var x, y := a / b, c / d;
    assert a == x * b && c == y * d;
    assert a * c == (x * y) * (b * d);
    assert b * d != 0.0;
  }

  lemma Cancel(a: real, b: real, c: real)
    requires b != 0.0 && c != 0.0
    ensures b * c != 0.0 && (a * c) / (b * c) == a / b
  {
    Fractions(a, b, c, c);
    assert c / c == 1.0;
  }

  lemma SameDenominator(a: real, b: real, c: real)
    requires c != 0.0
    ensures a / c + b / c == (a + b) / c
  {}

  /** The chance that the second of two draws is of a kind is the chance that the first is. */
  lemma SecondLikeFirst(h: real, o: real, p: real, q: real)
    requires p == h + o && q == p - 1.0 && p != 0.0 && q != 0.0
    ensures (h / p) * (o / q) + (o / p) * ((o - 1.0) / q) == o / p
  {
    Fractions(h, p, o, q);
    Fractions(o, p, o - 1.0, q);
    SameDenominator(h * o, o * (o - 1.0), p * q);
    assert h * o + o * (o - 1.0) == o * q;
    Cancel(o, p, q);
  }

  /** Two kinds, and the share of rogue exits after each. */
  lemma ExitShares(h: nat, o: nat, afterHonest: real, afterOther: real)
    requires h + o > 1
    requires h > 0 ==> afterHonest == o as real / (h + o - 1) as real
    requires o > 0 ==> afterOther == (o - 1) as real / (h + o - 1) as real
    ensures h as real / (h + o) as real * afterHonest + o as real / (h + o) as real * afterOther == o as real / (h + o) as real
  {
    var H, O, p, q := h as real, o as real, (h + o) as real, (h + o - 1) as real;
    SecondLikeFirst(H, O, p, q);
    if h == 0 {
      assert H / p == 0.0;
    } else if o == 0 {
      assert O / p == 0.0;
    }
  }

  /** One draw of two kinds, as numbers. */
  lemma TwoKinds(at: Undrawn, draws: nat, h: Chains, o: Chains)
    requires 0 < draws <= Pool(at) && at.withholding == 0
    requires h == if at.honest == 0 then NONE else Plain(Draw(at, Honest), draws - 1)
    requires o == if at.others == 0 then NONE else Plain(Draw(at, Other), draws - 1)
    ensures Plain(at, draws) == Plus(Plus(PartOf(at, Honest, draws), PartOf(at, Withholding, draws)), PartOf(at, Other, draws))
    ensures PartOf(at, Honest, draws) == Part(Share(at.honest, Pool(at)), h)
    ensures PartOf(at, Withholding, draws) == NONE
    ensures PartOf(at, Other, draws) == Part(Share(at.others, Pool(at)), o)
  {
    SharesSum(at);
  }

  lemma LastExit(x: real, y: real, h: nat, o: nat, a: real, b: real)
    requires (h == 0 ==> x == 0.0) && (o == 0 ==> y == 0.0)
    requires (h > 0 ==> a == 0.0) && (o > 0 ==> b == 1.0)
    ensures x * a + y * b == y
  {
    assert x * a == 0.0;
    assert y * b == y;
  }

  lemma ExitStep(h: nat, o: nat, last: bool, a: Chains, b: Chains)
    requires h + o > (if last then 0 else 1)
    requires h > 0 ==> a.rogueExit == if last then 0.0 else o as real / (h + o - 1) as real
    requires o > 0 ==> b.rogueExit == if last then 1.0 else (o - 1) as real / (h + o - 1) as real
    ensures Plus(Plus(Part(Share(h, h + o), a), NONE), Part(Share(o, h + o), b)).rogueExit == Share(o, h + o)
  {
    if last {
      LastExit(Share(h, h + o), Share(o, h + o), h, o, a.rogueExit, b.rogueExit);
    } else {
      ExitShares(h, o, a.rogueExit, b.rogueExit);
    }
  }

  lemma ScaledZero(x: real, y: real, h: nat, o: nat, a: real, b: real)
    requires (h == 0 ==> x == 0.0) && (o == 0 ==> y == 0.0)
    requires (h > 0 ==> a == 0.0) && (o > 0 ==> b == 0.0)
    ensures x * a + y * b == 0.0
  {
    assert x * a == 0.0;
    assert y * b == 0.0;
  }

  lemma UpStep(at: Undrawn, a: Chains, b: Chains)
    requires Pool(at) > 0 && at.withholding == 0
    requires at.honest > 0 ==> a.failed == 0.0
    requires at.others > 0 ==> b.failed == 0.0
    ensures Plus(Plus(Part(Share(at.honest, Pool(at)), a), NONE), Part(Share(at.others, Pool(at)), b)).failed == 0.0
  {
    SharesSum(at);
    ScaledZero(Share(at.honest, Pool(at)), Share(at.others, Pool(at)), at.honest, at.others, a.failed, b.failed);
  }

  lemma {:induction false} NoneFails(at: Undrawn, draws: nat)
    requires draws <= Pool(at) && at.withholding == 0
    ensures Plain(at, draws).failed == 0.0
    decreases draws
  {
    if draws > 0 {
      if at.honest > 0 { NoneFails(Draw(at, Honest), draws - 1); }
      if at.others > 0 { NoneFails(Draw(at, Other), draws - 1); }
      var h := if at.honest == 0 then NONE else Plain(Draw(at, Honest), draws - 1);
      var o := if at.others == 0 then NONE else Plain(Draw(at, Other), draws - 1);
      TwoKinds(at, draws, h, o);
      UpStep(at, h, o);
    }
  }

  function ExitShare(at: Undrawn, draws: nat): real
    requires draws <= Pool(at)
  {
    if draws > 0 then Share(at.others, Pool(at)) else if at.afterHonest then 0.0 else 1.0
  }

  lemma ExitCombined(at: Undrawn, draws: nat, a: Chains, b: Chains)
    requires 0 < draws <= Pool(at) && at.withholding == 0
    requires at.honest > 0 ==> a.rogueExit == ExitShare(Draw(at, Honest), draws - 1)
    requires at.others > 0 ==> b.rogueExit == ExitShare(Draw(at, Other), draws - 1)
    ensures Plus(Plus(Part(Share(at.honest, Pool(at)), a), NONE), Part(Share(at.others, Pool(at)), b)).rogueExit
            == ExitShare(at, draws)
  {
    ExitStep(at.honest, at.others, draws == 1, a, b);
  }

  /** With nobody withholding, an exit is rogue in the share of rogue nodes, however many draws come before it. */
  lemma {:induction false} LastLikeFirst(at: Undrawn, draws: nat)
    requires draws <= Pool(at) && at.withholding == 0
    ensures Plain(at, draws).rogueExit == ExitShare(at, draws)
    decreases draws
  {
    if draws > 0 {
      if at.honest > 0 { LastLikeFirst(Draw(at, Honest), draws - 1); }
      if at.others > 0 { LastLikeFirst(Draw(at, Other), draws - 1); }
      var h := if at.honest == 0 then NONE else Plain(Draw(at, Honest), draws - 1);
      var o := if at.others == 0 then NONE else Plain(Draw(at, Other), draws - 1);
      TwoKinds(at, draws, h, o);
      ExitCombined(at, draws, h, o);
    }
  }
}
