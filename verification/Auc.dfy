/** Rank-sum AUC and the curve under it (lab/metrics/correlation.go), on exact numbers. */
module Auc {
  import opened Results

  datatype Score = Score(value: real, truth: bool)

  // ----------------------------------------------------------------------- sums

  function SumOf(f: Score -> int, s: seq<Score>): int {
    if s == [] then 0 else SumOf(f, s[..|s| - 1]) + f(s[|s| - 1])
  }

  lemma {:induction false} SumConcat(f: Score -> int, s: seq<Score>, t: seq<Score>)
    ensures SumOf(f, s + t) == SumOf(f, s) + SumOf(f, t)
    decreases |t|
  {
    if t == [] {
      assert s + t == s;
    } else {
      SumConcat(f, s, t[..|t| - 1]);
      assert (s + t)[..|s + t| - 1] == s + t[..|t| - 1];
    }
  }

  lemma SumInThree(f: Score -> int, s: seq<Score>, i: nat, j: nat)
    requires i <= j <= |s|
    ensures SumOf(f, s) == SumOf(f, s[..i]) + SumOf(f, s[i..j]) + SumOf(f, s[j..])
  {
    assert s == s[..j] + s[j..] && s[..j] == s[..i] + s[i..j];
    SumConcat(f, s[..j], s[j..]);
    SumConcat(f, s[..i], s[i..j]);
  }

  lemma {:induction false} SumSplits(f: Score -> int, g: Score -> int, h: Score -> int, s: seq<Score>)
    requires forall e :: e in s ==> f(e) == g(e) + h(e)
    ensures SumOf(f, s) == SumOf(g, s) + SumOf(h, s)
    decreases |s|
  {
    if s != [] {
      SumSplits(f, g, h, s[..|s| - 1]);
    }
  }

  lemma {:induction false} SumConstant(f: Score -> int, s: seq<Score>, c: int)
    requires forall e :: e in s ==> f(e) == c
    ensures SumOf(f, s) == c * |s|
    decreases |s|
  {
    if s != [] {
      SumConstant(f, s[..|s| - 1], c);
    }
  }

  lemma {:induction false} SumScaled(f: Score -> int, g: Score -> int, s: seq<Score>, c: int)
    requires forall e :: e in s ==> f(e) == c * g(e)
    ensures SumOf(f, s) == c * SumOf(g, s)
    decreases |s|
  {
    if s != [] {
      SumScaled(f, g, s[..|s| - 1], c);
    }
  }

  lemma BothWithout(s: seq<Score>, t: seq<Score>, k: nat)
    requires multiset(s) == multiset(t) && s != [] && k < |t| && t[k] == s[|s| - 1]
    ensures multiset(s[..|s| - 1]) == multiset(t[..k] + t[k + 1..])
  {
    var e := t[k];
    assert s == s[..|s| - 1] + [e];
    assert t == t[..k] + [e] + t[k + 1..];
    assert multiset(s) == multiset(s[..|s| - 1]) + multiset{e};
    assert multiset(t) == multiset(t[..k]) + multiset{e} + multiset(t[k + 1..]);
    assert multiset(s) - multiset{e} == multiset(s[..|s| - 1]);
    assert multiset(t) - multiset{e} == multiset(t[..k] + t[k + 1..]);
  }

  /** Order does not matter. */
  lemma {:induction false} SumPermutes(f: Score -> int, s: seq<Score>, t: seq<Score>)
    requires multiset(s) == multiset(t)
    ensures SumOf(f, s) == SumOf(f, t)
    decreases |s|
  {
    if s == [] {
      assert |multiset(t)| == 0;
    } else {
      var e := s[|s| - 1];
      assert e in multiset(t);
      var k :| 0 <= k < |t| && t[k] == e;
      assert t == t[..k] + [e] + t[k + 1..];
      BothWithout(s, t, k);
      SumPermutes(f, s[..|s| - 1], t[..k] + t[k + 1..]);
      SumConcat(f, t[..k] + [e], t[k + 1..]);
      SumConcat(f, t[..k], [e]);
      SumConcat(f, t[..k], t[k + 1..]);
    }
  }

  // ---------------------------------------------------- the pairwise definition

  function One(b: bool): int {
    if b then 1 else 0
  }

  function IsTrue(): Score -> int { (e: Score) => One(e.truth) }
  function IsFalse(): Score -> int { (e: Score) => One(!e.truth) }

  function Positives(s: seq<Score>): int { SumOf(IsTrue(), s) }
  function Negatives(s: seq<Score>): int { SumOf(IsFalse(), s) }

  function Below(v: real): Score -> int { (e: Score) => One(!e.truth && e.value < v) }
  function Level(v: real): Score -> int { (e: Score) => One(!e.truth && e.value == v) }

  function WonBy(t: seq<Score>): Score -> int { (p: Score) => if p.truth then SumOf(Below(p.value), t) else 0 }
  function TiedBy(t: seq<Score>): Score -> int { (p: Score) => if p.truth then SumOf(Level(p.value), t) else 0 }

  /** Pairs of a positive and a negative, in which the positive scores higher. */
  function Won(s: seq<Score>): int { SumOf(WonBy(s), s) }

  /** Those in which both score the same. */
  function Tied(s: seq<Score>): int { SumOf(TiedBy(s), s) }

  /** The chance that a positive scores above a negative, a tie counting half; undefined without both. */
  function Chance(s: seq<Score>): Option<real> {
    if Positives(s) == 0 || Negatives(s) == 0 then None
    else Some((Won(s) as real + Tied(s) as real / 2.0) / (Positives(s) as real * Negatives(s) as real))
  }

  // -------------------------------------------------------------- in half pairs

  /** 2 for a lower score, 1 for the same. */
  function Worth(v: real, e: Score): int {
    if e.value < v then 2 else if e.value == v then 1 else 0
  }

  function Any(v: real): Score -> int { (e: Score) => Worth(v, e) }
  function OverFalse(v: real): Score -> int { (e: Score) => if e.truth then 0 else Worth(v, e) }
  function OverTrue(v: real): Score -> int { (e: Score) => if e.truth then Worth(v, e) else 0 }

  function HalvesBy(t: seq<Score>): Score -> int { (p: Score) => if p.truth then SumOf(OverFalse(p.value), t) else 0 }
  function TrueBy(t: seq<Score>): Score -> int { (p: Score) => if p.truth then SumOf(OverTrue(p.value), t) else 0 }

  function Halves(s: seq<Score>, t: seq<Score>): int { SumOf(HalvesBy(t), s) }

  function TwiceBelow(v: real): Score -> int { (e: Score) => if !e.truth && e.value < v then 2 else 0 }
  function TwiceWon(t: seq<Score>): Score -> int { (p: Score) => if p.truth then 2 * SumOf(Below(p.value), t) else 0 }

  lemma HalvesOne(v: real, t: seq<Score>)
    ensures SumOf(OverFalse(v), t) == 2 * SumOf(Below(v), t) + SumOf(Level(v), t)
  {
    SumSplits(OverFalse(v), TwiceBelow(v), Level(v), t);
    SumScaled(TwiceBelow(v), Below(v), t, 2);
  }

  lemma HalvesCount(s: seq<Score>)
    ensures Halves(s, s) == 2 * Won(s) + Tied(s)
  {
    forall p | p in s ensures HalvesBy(s)(p) == TwiceWon(s)(p) + TiedBy(s)(p) {
      HalvesOne(p.value, s);
    }
    SumSplits(HalvesBy(s), TwiceWon(s), TiedBy(s), s);
    SumScaled(TwiceWon(s), WonBy(s), s, 2);
  }

  lemma HalvesPermute(s: seq<Score>, t: seq<Score>)
    requires multiset(s) == multiset(t)
    ensures Halves(s, s) == Halves(t, t)
    ensures Positives(s) == Positives(t) && Negatives(s) == Negatives(t)
  {
    forall p | p in s ensures HalvesBy(s)(p) == 1 * HalvesBy(t)(p) {
      SumPermutes(OverFalse(p.value), s, t);
    }
    SumScaled(HalvesBy(s), HalvesBy(t), s, 1);
    SumPermutes(HalvesBy(t), s, t);
    SumPermutes(IsTrue(), s, t);
    SumPermutes(IsFalse(), s, t);
  }

  lemma {:induction false} CountsAdd(s: seq<Score>)
    ensures Positives(s) + Negatives(s) == |s| && Positives(s) >= 0 && Negatives(s) >= 0
    decreases |s|
  {
    if s != [] {
      CountsAdd(s[..|s| - 1]);
    }
  }

  // ---------------------------------------------------------------------- ranks

  predicate Ascending(s: seq<Score>) {
    forall i, j :: 0 <= i < j < |s| ==> s[i].value <= s[j].value
  }

  /** The average rank of a score, from one: half of all it is worth, and a half for itself. */
  function RankOf(s: seq<Score>, v: real): real {
    (SumOf(Any(v), s) + 1) as real / 2.0
  }

  lemma WorthBefore(s: seq<Score>, i: nat, v: real)
    requires Ascending(s) && i <= |s| && (i > 0 ==> s[i - 1].value < v)
    ensures SumOf(Any(v), s[..i]) == 2 * i
  {
    forall e | e in s[..i] ensures Any(v)(e) == 2 {
      var k :| 0 <= k < i && s[k] == e;
      assert k < i - 1 ==> s[k].value <= s[i - 1].value;
    }
    SumConstant(Any(v), s[..i], 2);
  }

  lemma WorthWithin(s: seq<Score>, i: nat, j: nat, v: real)
    requires Ascending(s) && i <= j < |s| && s[i].value == v && s[j].value == v
    ensures SumOf(Any(v), s[i..j + 1]) == j + 1 - i
  {
    forall e | e in s[i..j + 1] ensures Any(v)(e) == 1 {
      var k :| i <= k <= j && s[k] == e;
      assert i < k ==> s[i].value <= s[k].value;
      assert k < j ==> s[k].value <= s[j].value;
    }
    SumConstant(Any(v), s[i..j + 1], 1);
  }

  lemma WorthAfter(s: seq<Score>, j: nat, v: real)
    requires Ascending(s) && j < |s| && (j + 1 < |s| ==> v < s[j + 1].value)
    ensures SumOf(Any(v), s[j + 1..]) == 0
  {
    forall e | e in s[j + 1..] ensures Any(v)(e) == 0 {
      var k :| j + 1 <= k < |s| && s[k] == e;
      assert j + 1 < k ==> s[j + 1].value <= s[k].value;
    }
    SumConstant(Any(v), s[j + 1..], 0);
  }

  /** In a sorted list a tie group i..j has the mean of its places as its rank. */
  lemma GroupRank(s: seq<Score>, i: nat, j: nat, v: real)
    requires Ascending(s) && i <= j < |s| && s[i].value == v && s[j].value == v
    requires i > 0 ==> s[i - 1].value < v
    requires j + 1 < |s| ==> v < s[j + 1].value
    ensures SumOf(Any(v), s) == i + j + 1
  {
    SumInThree(Any(v), s, i, j + 1);
    WorthBefore(s, i, v);
    WorthWithin(s, i, j, v);
    WorthAfter(s, j, v);
  }

  method AverageRanks(sorted: seq<Score>) returns (ranks: seq<real>)
    requires Ascending(sorted)
    ensures |ranks| == |sorted|
    ensures forall k :: 0 <= k < |sorted| ==> ranks[k] == RankOf(sorted, sorted[k].value)
  {
    var n := |sorted|;
    var r := new real[n];
    var i := 0;
    while i < n
      invariant 0 <= i <= n
      invariant 0 < i < n ==> sorted[i - 1].value < sorted[i].value
      invariant forall k :: 0 <= k < i ==> r[k] == RankOf(sorted, sorted[k].value)
    {
      var j := i;
      while j + 1 < n && sorted[j + 1].value == sorted[i].value
        invariant i <= j < n && sorted[j].value == sorted[i].value
      {
        j := j + 1;
      }
      var avg := (i + j) as real / 2.0 + 1.0;
      GroupRank(sorted, i, j, sorted[i].value);
      for k := i to j + 1
        invariant forall m :: 0 <= m < i ==> r[m] == RankOf(sorted, sorted[m].value)
        invariant forall m :: i <= m < k ==> r[m] == avg
      {
        r[k] := avg;
      }
      i := j + 1;
    }
    ranks := r[..];
  }

  /** One more score adds what it gains, what is gained over it, and its tie with itself. */
  lemma OneMoreTrue(t: seq<Score>, x: Score)
    ensures SumOf(TrueBy(t + [x]), t + [x])
            == SumOf(TrueBy(t), t) + (if x.truth then 2 * Positives(t) + 1 else 0)
  {
    var s := t + [x];
    forall p | p in s ensures TrueBy(s)(p) == TrueBy(t)(p) + Against(x)(p) {
      SumConcat(OverTrue(p.value), t, [x]);
    }
    SumSplits(TrueBy(s), TrueBy(t), Against(x), s);
    SumConcat(TrueBy(t), t, [x]);
    SumConcat(Against(x), t, [x]);
    if x.truth {
      BothWays(t, x);
    } else {
      SumConstant(Against(x), t, 0);
    }
  }

  /** Among themselves the positives are worth one for each ordered pair. */
  lemma {:induction false} TrueAmongTrue(s: seq<Score>)
    ensures SumOf(TrueBy(s), s) == Positives(s) * Positives(s)
    decreases |s|
  {
    if s != [] {
      var t, x := s[..|s| - 1], s[|s| - 1];
      assert s == t + [x];
      TrueAmongTrue(t);
      OneMoreTrue(t, x);
      NextSquare(Positives(t), Positives(s), x.truth);
    }
  }

  lemma NextSquare(p: int, q: int, more: bool)
    requires q == p + One(more)
    ensures q * q == p * p + if more then 2 * p + 1 else 0
  {}

  /** What each positive gains over one more score. */
  function Against(x: Score): Score -> int { (p: Score) => if p.truth && x.truth then Worth(p.value, x) else 0 }

  function TwiceTrue(): Score -> int { (p: Score) => if p.truth then 2 else 0 }

  /** x against each positive and each positive against x come to two. */
  lemma BothWays(t: seq<Score>, x: Score)
    requires x.truth
    ensures SumOf(OverTrue(x.value), t) + SumOf(Against(x), t) == 2 * Positives(t)
  {
    SumSplits(TwiceTrue(), OverTrue(x.value), Against(x), t);
    SumScaled(TwiceTrue(), IsTrue(), t, 2);
  }

  /** What the positives' ranks come to, doubled. */
  function RanksBy(t: seq<Score>): Score -> int { (p: Score) => if p.truth then SumOf(Any(p.value), t) + 1 else 0 }
  function OverAll(t: seq<Score>): Score -> int { (p: Score) => if p.truth then SumOf(Any(p.value), t) else 0 }

  lemma RankSum(s: seq<Score>)
    ensures SumOf(RanksBy(s), s) == Halves(s, s) + Positives(s) * Positives(s) + Positives(s)
  {
    forall p | p in s ensures OverAll(s)(p) == HalvesBy(s)(p) + TrueBy(s)(p) {
      SumSplits(Any(p.value), OverFalse(p.value), OverTrue(p.value), s);
    }
    SumSplits(RanksBy(s), OverAll(s), IsTrue(), s);
    SumSplits(OverAll(s), HalvesBy(s), TrueBy(s), s);
    TrueAmongTrue(s);
  }

  lemma RankFormula(ranks: real, halves: int, won: int, tied: int, p: int, n: int)
    requires halves == 2 * won + tied && p > 0 && n > 0
    requires 2.0 * ranks == (halves + p * p + p) as real
    ensures (ranks - p as real * (p as real + 1.0) / 2.0) / (p as real * n as real)
            == (won as real + tied as real / 2.0) / (p as real * n as real)
  {
    assert (halves + p * p + p) as real == halves as real + p as real * p as real + p as real;
    assert p as real * (p as real + 1.0) == p as real * p as real + p as real;
    assert ranks - p as real * (p as real + 1.0) / 2.0 == won as real + tied as real / 2.0;
  }

  method CountAndSum(sorted: seq<Score>, ranks: seq<real>) returns (positives: int, negatives: int, rankSum: real)
    requires |ranks| == |sorted|
    requires forall k :: 0 <= k < |sorted| ==> ranks[k] == RankOf(sorted, sorted[k].value)
    ensures positives == Positives(sorted) && negatives == Negatives(sorted)
    ensures 2.0 * rankSum == SumOf(RanksBy(sorted), sorted) as real
  {
    positives, negatives, rankSum := 0, 0, 0.0;
    for i := 0 to |sorted|
      invariant positives == Positives(sorted[..i]) && negatives == Negatives(sorted[..i])
      invariant 2.0 * rankSum == SumOf(RanksBy(sorted), sorted[..i]) as real
    {
      assert sorted[..i + 1][..i] == sorted[..i];
      if sorted[i].truth {
        positives := positives + 1;
        rankSum := rankSum + ranks[i];
      } else {
        negatives := negatives + 1;
      }
    }
    assert sorted[..|sorted|] == sorted;
  }

  /** For every list, and whatever order the sort leaves ties in, the rank sum gives the pairwise chance. */
  method RankSumAuc(scores: seq<Score>, sorted: seq<Score>) returns (r: Option<real>)
    requires multiset(sorted) == multiset(scores) && Ascending(sorted)
    ensures r == Chance(scores)
  {
    var ranks := AverageRanks(sorted);
    var positives, negatives, rankSum := CountAndSum(sorted, ranks);
    HalvesPermute(sorted, scores);
    if positives == 0 || negatives == 0 {
      return None;
    }
    CountsAdd(sorted);
    RankSum(sorted);
    HalvesCount(scores);
    RankFormula(rankSum, Halves(scores, scores), Won(scores), Tied(scores), positives, negatives);
    r := Some((rankSum - positives as real * (positives as real + 1.0) / 2.0) / (positives as real * negatives as real));
  }

  // ------------------------------------------------------------------ the curve

  datatype Point = Point(fpr: real, tpr: real)

  predicate Descending(s: seq<Score>) {
    forall i, j :: 0 <= i < j < |s| ==> s[i].value >= s[j].value
  }

  function Trapezoid(p: Point, q: Point): real {
    (q.fpr - p.fpr) * (p.tpr + q.tpr) / 2.0
  }

  /** The area under the straight lines between the points. */
  function Area(points: seq<Point>): real {
    if |points| < 2 then 0.0
    else Area(points[..|points| - 1]) + Trapezoid(points[|points| - 2], points[|points| - 1])
  }

  predicate Rising(points: seq<Point>) {
    forall i :: 0 < i < |points| ==> points[i - 1].fpr <= points[i].fpr && points[i - 1].tpr <= points[i].tpr
  }

  function Values(s: seq<Score>): set<real> {
    set e | e in s :: e.value
  }

  /** A further group, all below what came before it. */
  lemma HalvesGrow(s: seq<Score>, g: seq<Score>, v: real)
    requires forall e :: e in s ==> e.value > v
    requires forall e :: e in g ==> e.value == v
    ensures Halves(s + g, s + g) == Halves(s, s) + Negatives(g) * (2 * Positives(s) + Positives(g))
  {
    SumConcat(HalvesBy(s + g), s, g);
    forall p | p in s ensures HalvesBy(s + g)(p) == HalvesBy(s)(p) + Scaled(2 * Negatives(g))(p) {
      SumConcat(OverFalse(p.value), s, g);
      SumScaled(OverFalse(p.value), IsFalse(), g, 2);
    }
    SumSplits(HalvesBy(s + g), HalvesBy(s), Scaled(2 * Negatives(g)), s);
    SumScaled(Scaled(2 * Negatives(g)), IsTrue(), s, 2 * Negatives(g));
    forall p | p in g ensures HalvesBy(s + g)(p) == Negatives(g) * IsTrue()(p) {
      SumConcat(OverFalse(p.value), s, g);
      SumConstant(OverFalse(p.value), s, 0);
      SumScaled(OverFalse(p.value), IsFalse(), g, 1);
    }
    SumScaled(HalvesBy(s + g), IsTrue(), g, Negatives(g));
    Distribute(Negatives(g), Positives(s), Positives(g));
  }

  function Scaled(c: int): Score -> int { (p: Score) => if p.truth then c else 0 }

  lemma Distribute(n: int, p: int, q: int)
    ensures 2 * n * p + n * q == n * (2 * p + q)
  {}

  /** One more trapezoid, over the counts it stands for. */
  lemma TrapezoidCounts(fp: int, tp: int, dfp: int, dtp: int, p: int, n: int)
    requires p > 0 && n > 0
    ensures Trapezoid(Point(fp as real / n as real, tp as real / p as real),
                      Point((fp + dfp) as real / n as real, (tp + dtp) as real / p as real))
            * (p as real * n as real) == (dfp * (2 * tp + dtp)) as real / 2.0
  {
    var P, N := p as real, n as real;
    var x, y := dfp as real / N, (2 * tp + dtp) as real / P;
    assert (fp + dfp) as real / N - fp as real / N == x;
    assert tp as real / P + (tp + dtp) as real / P == y;
    assert x * N == dfp as real && y * P == (2 * tp + dtp) as real;
    assert x * y / 2.0 * (P * N) == (x * N) * (y * P) / 2.0;
    assert (dfp * (2 * tp + dtp)) as real == dfp as real * (2 * tp + dtp) as real;
  }

  method CountBoth(s: seq<Score>) returns (positives: int, negatives: int)
    ensures positives == Positives(s) && negatives == Negatives(s)
  {
    positives, negatives := 0, 0;
    for i := 0 to |s|
      invariant positives == Positives(s[..i]) && negatives == Negatives(s[..i])
    {
      assert s[..i + 1][..i] == s[..i];
      if s[i].truth { positives := positives + 1; } else { negatives := negatives + 1; }
    }
    assert s[..|s|] == s;
  }

  function PointAt(s: seq<Score>, p: int, n: int): Point
    requires p > 0 && n > 0
  {
    Point(Negatives(s) as real / n as real, Positives(s) as real / p as real)
  }

  /** The curve over a whole number of tie groups. */
  ghost predicate Drawn(points: seq<Point>, s: seq<Score>, p: int, n: int) {
    && p > 0 && n > 0 && |points| == 1 + |Values(s)|
    && points[0] == Point(0.0, 0.0) && points[|points| - 1] == PointAt(s, p, n)
    && Rising(points)
    && AreaFits(Area(points), Halves(s, s), p, n)
  }

  /** An area that is so many half pairs out of all p * n. */
  ghost predicate AreaFits(area: real, halves: int, p: int, n: int) {
    area * (p as real * n as real) == halves as real / 2.0
  }

  lemma AreaOn(area: real, halves: int, fp: int, tp: int, dfp: int, dtp: int, p: int, n: int)
    requires p > 0 && n > 0 && AreaFits(area, halves, p, n)
    ensures AreaFits(area + Trapezoid(Point(fp as real / n as real, tp as real / p as real),
                                      Point((fp + dfp) as real / n as real, (tp + dtp) as real / p as real)),
                     halves + dfp * (2 * tp + dtp), p, n)
  {
    TrapezoidCounts(fp, tp, dfp, dtp, p, n);
    var t := Trapezoid(Point(fp as real / n as real, tp as real / p as real),
                       Point((fp + dfp) as real / n as real, (tp + dtp) as real / p as real));
    AreaGrows(area, t, p as real * n as real);
  }

  lemma NothingDrawn(p: int, n: int)
    requires p > 0 && n > 0
    ensures Drawn([Point(0.0, 0.0)], [], p, n)
  {
    assert Values([]) == {};
  }

  lemma CountsJoin(s: seq<Score>, g: seq<Score>)
    ensures Positives(s + g) == Positives(s) + Positives(g) && Positives(g) >= 0
    ensures Negatives(s + g) == Negatives(s) + Negatives(g) && Negatives(g) >= 0
  {
    SumConcat(IsTrue(), s, g);
    SumConcat(IsFalse(), s, g);
    CountsAdd(g);
  }

  lemma OneValueMore(s: seq<Score>, g: seq<Score>, v: real)
    requires g != [] && (forall e :: e in s ==> e.value > v) && (forall e :: e in g ==> e.value == v)
    ensures |Values(s + g)| == |Values(s)| + 1
  {
    assert g[0] in g;
    assert v !in Values(s);
    assert Values(s + g) == Values(s) + {v};
  }

  lemma RatioGrows(a: int, b: int, n: int)
    requires a <= b && n > 0
    ensures a as real / n as real <= b as real / n as real
  {}

  lemma RisingOn(points: seq<Point>, s: seq<Score>, g: seq<Score>, p: int, n: int)
    requires p > 0 && n > 0 && points != [] && points[|points| - 1] == PointAt(s, p, n) && Rising(points)
    ensures Rising(points + [PointAt(s + g, p, n)])
  {
    CountsJoin(s, g);
    RatioGrows(Negatives(s), Negatives(s + g), n);
    RatioGrows(Positives(s), Positives(s + g), p);
  }

  lemma AreaSnoc(points: seq<Point>, next: Point)
    requires points != []
    ensures Area(points + [next]) == Area(points) + Trapezoid(points[|points| - 1], next)
  {
    assert (points + [next])[..|points|] == points;
  }

  lemma AreaDrawn(points: seq<Point>, s: seq<Score>, g: seq<Score>, v: real, p: int, n: int)
    requires p > 0 && n > 0 && points != [] && points[|points| - 1] == PointAt(s, p, n)
    requires AreaFits(Area(points), Halves(s, s), p, n)
    requires (forall e :: e in s ==> e.value > v) && (forall e :: e in g ==> e.value == v)
    ensures AreaFits(Area(points + [PointAt(s + g, p, n)]), Halves(s + g, s + g), p, n)
  {
    CountsJoin(s, g);
    AreaSnoc(points, PointAt(s + g, p, n));
    HalvesGrow(s, g, v);
    AreaOn(Area(points), Halves(s, s), Negatives(s), Positives(s), Negatives(g), Positives(g), p, n);
  }

  lemma DrawnOn(points: seq<Point>, s: seq<Score>, g: seq<Score>, v: real, p: int, n: int)
    requires Drawn(points, s, p, n) && g != []
    requires (forall e :: e in s ==> e.value > v) && (forall e :: e in g ==> e.value == v)
    ensures Drawn(points + [PointAt(s + g, p, n)], s + g, p, n)
  {
    OneValueMore(s, g, v);
    RisingOn(points, s, g, p, n);
    AreaDrawn(points, s, g, v, p, n);
  }

  lemma AreaGrows(a: real, t: real, k: real)
    ensures (a + t) * k == a * k + t * k
  {}

  /** Counts on to the end of the tie group that starts at i. */
  method CountGroup(s: seq<Score>, i: nat, tp: int, fp: int) returns (j: nat, tp': int, fp': int)
    requires i < |s| && tp == Positives(s[..i]) && fp == Negatives(s[..i])
    ensures i < j <= |s| && s[j - 1].value == s[i].value && (j < |s| ==> s[j].value != s[i].value)
    ensures tp' == Positives(s[..j]) && fp' == Negatives(s[..j])
  {
    j, tp', fp' := i, tp, fp;
    while j < |s| && s[j].value == s[i].value
      invariant i <= j <= |s| && (j > i ==> s[j - 1].value == s[i].value)
      invariant tp' == Positives(s[..j]) && fp' == Negatives(s[..j])
    {
      assert s[..j + 1][..j] == s[..j];
      if s[j].truth { tp' := tp' + 1; } else { fp' := fp' + 1; }
      j := j + 1;
    }
  }

  /** One point per tie group, from (0, 0) to (1, 1), and the area under them is the pairwise chance. */
  method Roc(scores: seq<Score>, sorted: seq<Score>) returns (points: seq<Point>)
    requires multiset(sorted) == multiset(scores) && Descending(sorted)
    ensures points == [] <==> Chance(scores).None?
    ensures points != [] ==>
              && points[0] == Point(0.0, 0.0) && points[|points| - 1] == Point(1.0, 1.0) && Rising(points)
              && |points| == 1 + |Values(scores)|
              && Chance(scores) == Some(Area(points))
  {
    var positives, negatives := CountBoth(sorted);
    HalvesPermute(sorted, scores);
    CountsAdd(sorted);
    if positives == 0 || negatives == 0 {
      return [];
    }
    points := [Point(0.0, 0.0)];
    var tp, fp, i := 0, 0, 0;
    NothingDrawn(positives, negatives);
    assert sorted[..0] == [];
    while i < |sorted|
      invariant 0 <= i <= |sorted|
      invariant tp == Positives(sorted[..i]) && fp == Negatives(sorted[..i])
      invariant 0 < i < |sorted| ==> sorted[i - 1].value > sorted[i].value
      invariant Drawn(points, sorted[..i], positives, negatives)
    {
      var j;
      j, tp, fp := CountGroup(sorted, i, tp, fp);
      GroupDrawn(points, sorted, i, j, positives, negatives);
      points := points + [Point(fp as real / negatives as real, tp as real / positives as real)];
      i := j;
    }
    assert sorted[..|sorted|] == sorted;
    Finished(points, scores, sorted, positives, negatives);
  }

  lemma GroupValues(s: seq<Score>, i: nat, j: nat)
    requires Descending(s) && i < j <= |s| && s[j - 1].value == s[i].value
    requires i > 0 ==> s[i - 1].value > s[i].value
    ensures forall e :: e in s[..i] ==> e.value > s[i].value
    ensures forall e :: e in s[i..j] ==> e.value == s[i].value
  {
    var v := s[i].value;
    forall e | e in s[..i] ensures e.value > v {
      var k :| 0 <= k < i && s[k] == e;
      assert k < i - 1 ==> s[k].value >= s[i - 1].value;
    }
    forall e | e in s[i..j] ensures e.value == v {
      var k :| i <= k < j && s[k] == e;
      assert i < k ==> s[i].value >= s[k].value;
      assert k < j - 1 ==> s[k].value >= s[j - 1].value;
    }
  }

  lemma GroupDrawn(points: seq<Point>, s: seq<Score>, i: nat, j: nat, p: int, n: int)
    requires Descending(s) && i < j <= |s| && s[j - 1].value == s[i].value
    requires i > 0 ==> s[i - 1].value > s[i].value
    requires Drawn(points, s[..i], p, n)
    ensures Drawn(points + [PointAt(s[..j], p, n)], s[..j], p, n)
  {
    GroupValues(s, i, j);
    DrawnOn(points, s[..i], s[i..j], s[i].value, p, n);
    assert s[..j] == s[..i] + s[i..j];
  }

  lemma Finished(points: seq<Point>, scores: seq<Score>, sorted: seq<Score>, p: int, n: int)
    requires multiset(sorted) == multiset(scores) && p == Positives(sorted) && n == Negatives(sorted)
    requires Drawn(points, sorted, p, n)
    ensures points[|points| - 1] == Point(1.0, 1.0) && |points| == 1 + |Values(scores)|
    ensures Chance(scores) == Some(Area(points))
  {
    HalvesPermute(sorted, scores);
    HalvesCount(scores);
    forall e ensures e in sorted <==> e in scores {
      assert e in sorted <==> e in multiset(sorted);
      assert e in scores <==> e in multiset(scores);
    }
    assert Values(scores) == Values(sorted);
    Whole(p);
    Whole(n);
    ChanceIs(Area(points), Halves(scores, scores), Won(scores), Tied(scores), Positives(scores), Negatives(scores));
    assert Chance(scores).Some?;
    var P, N := Positives(scores) as real, Negatives(scores) as real;
    assert Chance(scores).value == (Won(scores) as real + Tied(scores) as real / 2.0) / (P * N);
    assert Chance(scores).value == Area(points);
  }

  lemma Whole(k: int)
    requires k > 0
    ensures k as real / k as real == 1.0
  {}

  lemma ChanceIs(area: real, halves: int, won: int, tied: int, p: int, n: int)
    requires p > 0 && n > 0 && halves == 2 * won + tied && AreaFits(area, halves, p, n)
    ensures (won as real + tied as real / 2.0) / (p as real * n as real) == area
  {
    var k := p as real * n as real;
    assert k > 0.0;
    Divided(area, k, won as real + tied as real / 2.0);
  }

  lemma Divided(a: real, k: real, x: real)
    requires k != 0.0 && a * k == x
    ensures x / k == a
  {}
}
