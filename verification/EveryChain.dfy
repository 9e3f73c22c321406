/** The shares of a rogue entry's chains, counted chain by chain (lab/metrics/compromise.go). */
module EveryChain {
  import opened Compromise

  /** What a chain can be counted as: up, lost at setup, up with a rogue last node, or free of rogue nodes. */
  datatype Outcome = Up | Fails | RogueExit | AllHonest

  predicate ComesUp(chain: seq<Kind>) {
    forall i :: 0 < i < |chain| ==> !(chain[i - 1].Honest? && chain[i].Withholding?)
  }

  predicate Has(chain: seq<Kind>, o: Outcome) {
    match o
    case Up => ComesUp(chain)
    case Fails => !ComesUp(chain)
    case RogueExit => ComesUp(chain) && chain != [] && !chain[|chain| - 1].Honest?
    case AllHonest => forall i :: 0 <= i < |chain| ==> chain[i].Honest?
  }

  function One(b: bool): nat {
    if b then 1 else 0
  }

  function Drop(pool: seq<Kind>, i: nat): (rest: seq<Kind>)
    requires i < |pool|
    ensures |rest| == |pool| - 1
  {
    pool[..i] + pool[i + 1..]
  }

  /** Ways to go on with so many more nodes, each node of the pool drawn at most once. */
  function Ways(o: Outcome, pool: seq<Kind>, chain: seq<Kind>, draws: nat): nat
    decreases draws, |pool| + 1
  {
    if draws == 0 then One(Has(chain, o)) else WaysAmong(o, pool, chain, draws, |pool|)
  }

  /** Those whose next node is one of the first k. */
  function WaysAmong(o: Outcome, pool: seq<Kind>, chain: seq<Kind>, draws: nat, k: nat): nat
    requires 0 < draws && k <= |pool|
    decreases draws, k
  {
    if k == 0 then 0
    else WaysAmong(o, pool, chain, draws, k - 1) + Ways(o, Drop(pool, k - 1), chain + [pool[k - 1]], draws - 1)
  }

  /** n * (n - 1) * ... with d factors. */
  function Falling(n: int, d: nat): int
    decreases d
  {
    if d == 0 then 1 else n * Falling(n - 1, d - 1)
  }

  // ---------------------------------------------------------------- kinds in a pool

  function Among(pool: seq<Kind>, k: Kind): nat {
    if pool == [] then 0 else Among(pool[..|pool| - 1], k) + One(pool[|pool| - 1] == k)
  }

  lemma {:induction false} AmongConcat(s: seq<Kind>, t: seq<Kind>, k: Kind)
    ensures Among(s + t, k) == Among(s, k) + Among(t, k)
    decreases |t|
  {
    if t == [] {
      assert s + t == s;
    } else {
      AmongConcat(s, t[..|t| - 1], k);
      assert (s + t)[..|s + t| - 1] == s + t[..|t| - 1];
    }
  }

  lemma AmongDropped(pool: seq<Kind>, i: nat, k: Kind)
    requires i < |pool|
    ensures Among(Drop(pool, i), k) == Among(pool, k) - One(pool[i] == k)
  {
    assert pool == pool[..i] + [pool[i]] + pool[i + 1..];
    AmongConcat(pool[..i] + [pool[i]], pool[i + 1..], k);
    AmongConcat(pool[..i], [pool[i]], k);
    AmongConcat(pool[..i], pool[i + 1..], k);
  }

  lemma {:induction false} AmongAll(pool: seq<Kind>)
    ensures Among(pool, Honest) + Among(pool, Withholding) + Among(pool, Other) == |pool|
    decreases |pool|
  {
    if pool != [] {
      AmongAll(pool[..|pool| - 1]);
    }
  }

  function State(pool: seq<Kind>, chain: seq<Kind>): Undrawn
    requires chain != []
  {
    Undrawn(Among(pool, Honest), Among(pool, Withholding), Among(pool, Other), chain[|chain| - 1].Honest?)
  }

  lemma StateDrawn(pool: seq<Kind>, chain: seq<Kind>, i: nat)
    requires chain != [] && i < |pool|
    ensures Count(State(pool, chain), pool[i]) > 0 && Pool(State(pool, chain)) == |pool|
    ensures State(Drop(pool, i), chain + [pool[i]]) == Draw(State(pool, chain), pool[i])
  {
    AmongAll(pool);
    AmongDropped(pool, i, Honest);
    AmongDropped(pool, i, Withholding);
    AmongDropped(pool, i, Other);
  }

  // ------------------------------------------------------------------- lost chains

  /** A chain that has failed stays failed, whatever follows. */
  lemma {:induction false} LostWays(o: Outcome, pool: seq<Kind>, chain: seq<Kind>, draws: nat)
    requires !ComesUp(chain) && draws <= |pool|
    ensures Ways(o, pool, chain, draws) == if o.Fails? then Falling(|pool|, draws) else 0
    decreases draws, |pool| + 1
  {
    if draws > 0 {
      LostAmong(o, pool, chain, draws, |pool|);
    }
  }

  lemma {:induction false} LostAmong(o: Outcome, pool: seq<Kind>, chain: seq<Kind>, draws: nat, k: nat)
    requires !ComesUp(chain) && 0 < draws <= |pool| && k <= |pool|
    ensures WaysAmong(o, pool, chain, draws, k) == if o.Fails? then k * Falling(|pool| - 1, draws - 1) else 0
    decreases draws, k
  {
    if k > 0 {
      LostAmong(o, pool, chain, draws, k - 1);
      StillLost(chain, pool[k - 1]);
      LostWays(o, Drop(pool, k - 1), chain + [pool[k - 1]], draws - 1);
    }
  }

  lemma StillLost(chain: seq<Kind>, x: Kind)
    requires !ComesUp(chain)
    ensures !ComesUp(chain + [x])
  {
    var i :| 0 < i < |chain| && chain[i - 1].Honest? && chain[i].Withholding?;
    assert (chain + [x])[i - 1] == chain[i - 1] && (chain + [x])[i] == chain[i];
  }

  lemma GoesOn(chain: seq<Kind>, x: Kind)
    requires chain != [] && ComesUp(chain)
    ensures ComesUp(chain + [x]) <==> !(chain[|chain| - 1].Honest? && x.Withholding?)
  {
    if chain[|chain| - 1].Honest? && x.Withholding? {
      assert (chain + [x])[|chain| - 1] == chain[|chain| - 1] && (chain + [x])[|chain|] == x;
    }
  }

  // -------------------------------------------------------------- shares and counts

  function Field(c: Chains, o: Outcome): real
    requires !o.AllHonest?
  {
    match o
    case Up => c.comeUp
    case Fails => c.failed
    case RogueExit => c.rogueExit
  }

  /** What follows once a node of this kind is drawn. */
  function After(at: Undrawn, k: Kind, draws: nat): Chains
    requires 0 < draws <= Pool(at)
  {
    if k.Withholding? && at.afterHonest then Chains(0.0, 1.0, 0.0)
    else if Count(at, k) == 0 then NONE
    else Plain(Draw(at, k), draws - 1)
  }

  function Combined(at: Undrawn, h: Chains, w: Chains, o: Chains): Chains
    requires Pool(at) > 0
  {
    Plus(Plus(Part(Share(at.honest, Pool(at)), h), Part(Share(at.withholding, Pool(at)), w)), Part(Share(at.others, Pool(at)), o))
  }

  lemma PartTrivial(share: real)
    ensures Part(share, Chains(0.0, 1.0, 0.0)) == Chains(0.0, share, 0.0) && Part(share, NONE) == NONE
  {}

  lemma PartAfter(at: Undrawn, k: Kind, draws: nat)
    requires 0 < draws <= Pool(at)
    ensures PartOf(at, k, draws) == Part(Share(Count(at, k), Pool(at)), After(at, k, draws))
  {
    PartTrivial(Share(Count(at, k), Pool(at)));
  }

  lemma PlainCombined(at: Undrawn, draws: nat)
    requires 0 < draws <= Pool(at)
    ensures Plain(at, draws) == Combined(at, After(at, Honest, draws), After(at, Withholding, draws), After(at, Other, draws))
  {
    PartAfter(at, Honest, draws);
    PartAfter(at, Withholding, draws);
    PartAfter(at, Other, draws);
  }

  /** n out of p, times p times f, is n times f. */
  lemma ShareOfAll(n: nat, p: nat, v: real, f: int)
    requires p > 0
    ensures (Share(n, p) * v) * (p * f) as real == n as real * (v * f as real)
  {
    var s := Share(n, p);
    assert s * p as real == n as real;
    assert (p * f) as real == p as real * f as real;
    assert (s * v) * (p as real * f as real) == (s * p as real) * (v * f as real);
  }

  /** x, added up n times. */
  function Times(n: nat, x: real): real {
    if n == 0 then 0.0 else Times(n - 1, x) + x
  }

  lemma {:induction false} TimesIsProduct(n: nat, x: real)
    ensures Times(n, x) == n as real * x
  {
    if n > 0 {
      TimesIsProduct(n - 1, x);
    }
  }

  /** So many nodes of each kind, each worth so many ways. */
  function Weigh(a: nat, b: nat, c: nat, x: real, y: real, z: real): real {
    Times(a, x) + Times(b, y) + Times(c, z)
  }

  lemma WeighOneMore(a: nat, b: nat, c: nat, k: Kind, x: real, y: real, z: real)
    ensures Weigh(a + One(k == Honest), b + One(k == Withholding), c + One(k == Other), x, y, z)
            == Weigh(a, b, c, x, y, z) + (match k case Honest => x case Withholding => y case Other => z)
  {}

  /** The ways through the first k nodes, by their kinds. */
  function ByKind(pool: seq<Kind>, h: real, w: real, o: real): real {
    Weigh(Among(pool, Honest), Among(pool, Withholding), Among(pool, Other), h, w, o)
  }

  lemma AmongSnoc(pool: seq<Kind>, x: Kind, k: Kind)
    ensures Among(pool + [x], k) == Among(pool, k) + One(x == k)
  {
    assert (pool + [x])[..|pool|] == pool;
  }

  lemma ByKindSnoc(pool: seq<Kind>, x: Kind, h: real, w: real, o: real)
    ensures ByKind(pool + [x], h, w, o) == ByKind(pool, h, w, o) + (match x case Honest => h case Withholding => w case Other => o)
  {
    AmongSnoc(pool, x, Honest);
    AmongSnoc(pool, x, Withholding);
    AmongSnoc(pool, x, Other);
    WeighOneMore(Among(pool, Honest), Among(pool, Withholding), Among(pool, Other), x, h, w, o);
  }

  /** A number of ways that is a share of all of them. */
  ghost predicate ShareOf(ways: real, share: real, all: int) {
    ways == share * all as real
  }

  /** One draw, as numbers: n nodes of each kind out of p, each going on in a share of f ways. */
  lemma DrawProducts(h: nat, w: nat, o: nat, p: nat, x: real, y: real, z: real, f: int, xs: real, ys: real, zs: real, total: real)
    requires p > 0 && xs == x * f as real && ys == y * f as real && zs == z * f as real
    requires total == Share(h, p) * x + Share(w, p) * y + Share(o, p) * z
    ensures ShareOf(h as real * xs + w as real * ys + o as real * zs, total, p * f)
  {
    ShareOfAll(h, p, x, f);
    ShareOfAll(w, p, y, f);
    ShareOfAll(o, p, z, f);
    Spread(Share(h, p) * x, Share(w, p) * y, Share(o, p) * z, (p * f) as real);
  }

  lemma WeighIsSum(a: nat, b: nat, c: nat, x: real, y: real, z: real)
    ensures Weigh(a, b, c, x, y, z) == a as real * x + b as real * y + c as real * z
  {
    TimesIsProduct(a, x);
    TimesIsProduct(b, y);
    TimesIsProduct(c, z);
  }

  lemma DrawCounts(h: nat, w: nat, o: nat, p: nat, x: real, y: real, z: real, f: int, xs: real, ys: real, zs: real, total: real)
    requires p > 0 && xs == x * f as real && ys == y * f as real && zs == z * f as real
    requires total == Share(h, p) * x + Share(w, p) * y + Share(o, p) * z
    ensures ShareOf(Weigh(h, w, o, xs, ys, zs), total, p * f)
  {
    DrawProducts(h, w, o, p, x, y, z, f, xs, ys, zs, total);
    WeighIsSum(h, w, o, xs, ys, zs);
  }

  lemma CombinedField(at: Undrawn, h: Chains, w: Chains, o: Chains, out: Outcome)
    requires !out.AllHonest?
    requires Pool(at) > 0
    ensures Field(Combined(at, h, w, o), out)
            == Share(at.honest, Pool(at)) * Field(h, out) + Share(at.withholding, Pool(at)) * Field(w, out)
             + Share(at.others, Pool(at)) * Field(o, out)
  {}

  lemma Spread(a: real, b: real, c: real, k: real)
    ensures (a + b + c) * k == a * k + b * k + c * k
  {}

  /** The ways on from each kind of node. */
  function Scaled(c: Chains, out: Outcome, f: int): real
    requires !out.AllHonest?
  {
    Field(c, out) * f as real
  }

  /** The number of chains with an outcome is its share of all of them. */
  ghost predicate Agrees(o: Outcome, pool: seq<Kind>, chain: seq<Kind>, draws: nat)
    requires !o.AllHonest?
    requires chain != [] && draws <= Pool(State(pool, chain))
  {
    ShareOf(Ways(o, pool, chain, draws) as real, Field(Plain(State(pool, chain), draws), o), Falling(|pool|, draws))
  }

  lemma NoneLeft(o: Outcome, pool: seq<Kind>, chain: seq<Kind>)
    requires !o.AllHonest?
    requires chain != [] && ComesUp(chain)
    ensures Agrees(o, pool, chain, 0)
  {
    var c := Plain(State(pool, chain), 0);
    assert c == Last(chain[|chain| - 1].Honest?);
    assert Falling(|pool|, 0) == 1;
  }

  lemma {:induction false} WaysAgree(o: Outcome, pool: seq<Kind>, chain: seq<Kind>, draws: nat)
    requires !o.AllHonest?
    requires chain != [] && ComesUp(chain) && draws <= |pool|
    ensures Pool(State(pool, chain)) == |pool| && Agrees(o, pool, chain, draws)
    decreases draws, |pool| + 1
  {
    AmongAll(pool);
    if draws == 0 {
      NoneLeft(o, pool, chain);
    } else {
      var at := State(pool, chain);
      AmongAgree(o, pool, chain, draws, |pool|, After(at, Honest, draws), After(at, Withholding, draws), After(at, Other, draws));
      PlainCombined(at, draws);
      AllAgree(o, pool, chain, draws, After(at, Honest, draws), After(at, Withholding, draws), After(at, Other, draws));
    }
  }

  lemma CombinedShare(at: Undrawn, h: Chains, w: Chains, r: Chains, o: Outcome, f: int)
    requires !o.AllHonest?
    requires Pool(at) > 0
    ensures ShareOf(Weigh(at.honest, at.withholding, at.others, Scaled(h, o, f), Scaled(w, o, f), Scaled(r, o, f)),
                    Field(Combined(at, h, w, r), o), Pool(at) * f)
  {
    CombinedField(at, h, w, r, o);
    DrawCounts(at.honest, at.withholding, at.others, Pool(at), Field(h, o), Field(w, o), Field(r, o), f,
               Scaled(h, o, f), Scaled(w, o, f), Scaled(r, o, f), Field(Combined(at, h, w, r), o));
  }

  lemma ByKindCombined(o: Outcome, pool: seq<Kind>, chain: seq<Kind>, h: Chains, w: Chains, r: Chains, f: int, ways: real)
    requires !o.AllHonest?
    requires chain != [] && pool != [] && Pool(State(pool, chain)) == |pool|
    requires ways == ByKind(pool, Scaled(h, o, f), Scaled(w, o, f), Scaled(r, o, f))
    ensures ShareOf(ways, Field(Combined(State(pool, chain), h, w, r), o), |pool| * f)
  {
    CombinedShare(State(pool, chain), h, w, r, o, f);
  }

  lemma AllAgree(o: Outcome, pool: seq<Kind>, chain: seq<Kind>, draws: nat, h: Chains, w: Chains, r: Chains)
    requires !o.AllHonest?
    requires chain != [] && 0 < draws <= |pool| && Pool(State(pool, chain)) == |pool|
    requires var f := Falling(|pool| - 1, draws - 1);
             WaysAmong(o, pool, chain, draws, |pool|) as real == ByKind(pool[..|pool|], Scaled(h, o, f), Scaled(w, o, f), Scaled(r, o, f))
    ensures ShareOf(Ways(o, pool, chain, draws) as real, Field(Combined(State(pool, chain), h, w, r), o), Falling(|pool|, draws))
  {
    assert pool[..|pool|] == pool;
    ByKindCombined(o, pool, chain, h, w, r, Falling(|pool| - 1, draws - 1), WaysAmong(o, pool, chain, draws, |pool|) as real);
  }

  lemma {:induction false} AmongAgree(o: Outcome, pool: seq<Kind>, chain: seq<Kind>, draws: nat, k: nat, h: Chains, w: Chains, r: Chains)
    requires !o.AllHonest?
    requires chain != [] && ComesUp(chain) && 0 < draws <= |pool| && k <= |pool| && Pool(State(pool, chain)) == |pool|
    requires var at := State(pool, chain);
             h == After(at, Honest, draws) && w == After(at, Withholding, draws) && r == After(at, Other, draws)
    ensures var f := Falling(|pool| - 1, draws - 1);
            WaysAmong(o, pool, chain, draws, k) as real == ByKind(pool[..k], Scaled(h, o, f), Scaled(w, o, f), Scaled(r, o, f))
    decreases draws, k
  {
    if k > 0 {
      var f := Falling(|pool| - 1, draws - 1);
      AmongAgree(o, pool, chain, draws, k - 1, h, w, r);
      NextAgrees(o, pool, chain, draws, k - 1);
      assert pool[..k] == pool[..k - 1] + [pool[k - 1]];
      ByKindSnoc(pool[..k - 1], pool[k - 1], Scaled(h, o, f), Scaled(w, o, f), Scaled(r, o, f));
    }
  }

  lemma Carry(ways: real, c: Chains, d: Chains, o: Outcome, f: int, g: int)
    requires !o.AllHonest?
    requires ShareOf(ways, Field(c, o), f) && c == d && f == g
    ensures ways == Scaled(d, o, g)
  {}

  lemma LostScaled(o: Outcome, f: int)
    requires !o.AllHonest?
    ensures Scaled(Chains(0.0, 1.0, 0.0), o, f) == if o.Fails? then f as real else 0.0
  {}

  lemma {:induction false} NextAgrees(o: Outcome, pool: seq<Kind>, chain: seq<Kind>, draws: nat, i: nat)
    requires !o.AllHonest?
    requires chain != [] && ComesUp(chain) && 0 < draws <= |pool| && i < |pool| && Pool(State(pool, chain)) == |pool|
    ensures Ways(o, Drop(pool, i), chain + [pool[i]], draws - 1) as real
            == Scaled(After(State(pool, chain), pool[i], draws), o, Falling(|pool| - 1, draws - 1))
    decreases draws, i
  {
    var x, rest, longer := pool[i], Drop(pool, i), chain + [pool[i]];
    GoesOn(chain, x);
    StateDrawn(pool, chain, i);
    if ComesUp(longer) {
      WaysAgree(o, rest, longer, draws - 1);
      Carry(Ways(o, rest, longer, draws - 1) as real, Plain(State(rest, longer), draws - 1),
            After(State(pool, chain), x, draws), o, Falling(|rest|, draws - 1), Falling(|pool| - 1, draws - 1));
    } else {
      LostWays(o, rest, longer, draws - 1);
      LostScaled(o, Falling(|pool| - 1, draws - 1));
    }
  }

  /**
   Over every ordered choice of distinct nodes behind one rogue entry, the number
   of chains that come up, fail, or come up with a rogue exit is the computed share
   of them all.
   */
  lemma SharesCountChains(o: Outcome, pool: seq<Kind>, draws: nat)
    requires !o.AllHonest?
    requires draws <= |pool|
    ensures Pool(State(pool, [Other])) == |pool|
    ensures Agrees(o, pool, [Other], draws)
  {
    WaysAgree(o, pool, [Other], draws);
  }
}
