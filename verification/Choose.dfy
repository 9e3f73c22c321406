/** How a client draws its path (client/choose.go). */
module Choose {
  import opened Results
  import opened ByteStrings

  const TWO63 := 0x8000_0000_0000_0000
  const MAX_DRAWS := 128

  datatype Failure = NoSuchChoice | SourceEnded | SourceStuck

  // -------------------------------------------------------- one number below m

  /** How many of the lowest words are thrown away: the two's complement of m, modulo m. */
  function Reject(m: int): (r: int)
    requires 0 < m < TWO64
    ensures 0 <= r < m
  {
    (TWO64 - m) % m
  }

  /** The words taken as a remainder of m. */
  predicate Usable(m: int, v: int)
    requires 0 < m < TWO64
  {
    Reject(m) <= v < TWO64
  }

  /** What below makes of a random source, and what it leaves of it. */
  function Below(rnd: Bytes, m: int, tries: nat): (r: (Result<nat, Failure>, Bytes))
    requires 0 < m < TWO64
    ensures r.0.Ok? ==> r.0.value < m
    decreases |rnd|
  {
    if tries == 0 then (Err(SourceStuck), rnd)
    else if |rnd| < 8 then (Err(SourceEnded), [])
    else
      var v := FromU64(rnd[..8]);
      if v >= Reject(m) then (Ok(v % m), rnd[8..]) else Below(rnd[8..], m, tries - 1)
  }

  /** The k-th word of a source is one of those thrown away. */
  predicate ThrownAway(rnd: Bytes, m: int, k: nat)
    requires 0 < m < TWO64 && 8 * k + 8 <= |rnd|
  {
    FromU64(rnd[8 * k..8 * k + 8]) < Reject(m)
  }

  /** A choice fails in two ways only: the tries are used up on words thrown away, or the source ends before that. */
  lemma {:induction false} BelowFails(rnd: Bytes, m: int, tries: nat)
    requires 0 < m < TWO64
    ensures var r := Below(rnd, m, tries).0;
            && (r == Err(SourceStuck) <==> 8 * tries <= |rnd| && forall k :: 0 <= k < tries ==> ThrownAway(rnd, m, k))
            && (r == Err(SourceEnded) <==> |rnd| < 8 * tries && forall k :: 0 <= k && 8 * k + 8 <= |rnd| ==> ThrownAway(rnd, m, k))
            && (r.Err? ==> r.error in {SourceStuck, SourceEnded})
    decreases |rnd|
  {
    if tries > 0 && |rnd| >= 8 {
      var rest := rnd[8..];
      forall k | 0 <= k && 8 * k + 16 <= |rnd| ensures ThrownAway(rnd, m, k + 1) <==> ThrownAway(rest, m, k) {
        assert rest[8 * k..8 * k + 8] == rnd[8 * k + 8..8 * k + 16];
      }
      forall k | 0 < k && 8 * k + 8 <= |rnd| ensures ThrownAway(rnd, m, k) <==> ThrownAway(rest, m, k - 1) {
        assert ThrownAway(rnd, m, k - 1 + 1) <==> ThrownAway(rest, m, k - 1);
      }
      assert ThrownAway(rnd, m, 0) <==> FromU64(rnd[..8]) < Reject(m);
      BelowFails(rest, m, tries - 1);
    }
  }

  /** The random source, read eight bytes at a time. */
  class Source {
    var bytes: Bytes

    constructor (bytes: Bytes)
      ensures this.bytes == bytes
    {
      this.bytes := bytes;
    }

    method DrawBelow(m: int) returns (r: Result<nat, Failure>)
      requires 0 < m < TWO64
      modifies this
      ensures (r, bytes) == Below(old(bytes), m, MAX_DRAWS)
    {
      var reject := Reject(m);
      var tries := MAX_DRAWS;
      while tries > 0
        invariant 0 <= tries
        invariant Below(old(bytes), m, MAX_DRAWS) == Below(bytes, m, tries)
      {
        if |bytes| < 8 {
          bytes := [];
          return Err(SourceEnded);
        }
        var v := FromU64(bytes[..8]);
        bytes := bytes[8..];
        if v >= reject {
          return Ok(v % m);
        }
        tries := tries - 1;
      }
      return Err(SourceStuck);
    }
  }

  /** Whole cycles of remainders among the words kept. */
  function Cycles(m: int): (q: nat)
    requires 0 < m < TWO64
  {
    (TWO64 - Reject(m)) / m
  }

  lemma ModAddOnce(a: int, m: int)
    requires m > 0
    ensures (a + m) % m == a % m
  {
    var q, r := a / m, a % m;
    assert a + m == (q + 1) * m + r;
    ModIs(a + m, m, q + 1, r);
  }

  lemma SmallMultiple(d: int, m: int)
    requires -m < d * m < m
    ensures d == 0
  {
    if d > 0 {
      Monotone(1, d, m);
    } else if d < 0 {
      Monotone(d, -1, m);
    }
  }

  lemma ModIs(a: int, m: int, q: int, r: int)
    requires m > 0 && a == q * m + r && 0 <= r < m
    ensures a / m == q && a % m == r
  {
    var p, s := a / m, a % m;
    assert p * m + s == q * m + r;
    assert (p - q) * m == p * m - q * m;
    SmallMultiple(p - q, m);
  }

  /** Exactly 2^64 mod m words are thrown away, which leaves whole cycles. */
  lemma WholeCycles(m: int)
    requires 0 < m < TWO64
    ensures Reject(m) == TWO64 % m && TWO64 == Cycles(m) * m + Reject(m)
  {
    ModAddOnce(TWO64 - m, m);
    var q := TWO64 / m;
    assert TWO64 == q * m + Reject(m);
    ModIs(TWO64 - Reject(m), m, q, 0);
  }

  /** The t-th word kept that gives remainder r. */
  function Word(m: int, r: nat, t: nat): (v: nat)
    requires 0 < m < TWO64
  {
    Monotone(0, if r >= Reject(m) then t else t + 1, m);
    (if r >= Reject(m) then t else t + 1) * m + r
  }

  lemma PlaceWithin(t: int, r: int, m: int, c: int, reject: int)
    requires m > 0 && 0 <= r < m && 0 <= reject < m && 0 <= t < c
    ensures var k := if r >= reject then t else t + 1;
            reject <= k * m + r < c * m + reject
  {
    if r >= reject {
      Monotone(0, t, m);
      Monotone(t + 1, c, m);
    } else {
      Monotone(1, t + 1, m);
      Monotone(t + 1, c, m);
    }
  }

  lemma WordUsable(m: int, r: nat, t: nat)
    requires 0 < m < TWO64 && r < m && t < Cycles(m)
    ensures Usable(m, Word(m, r, t)) && Word(m, r, t) % m == r
  {
    WholeCycles(m);
    PlaceWithin(t, r, m, Cycles(m), Reject(m));
    ModIs(Word(m, r, t), m, if r >= Reject(m) then t else t + 1, r);
  }

  lemma Monotone(a: int, b: int, m: int)
    requires a <= b && m > 0
    ensures a * m <= b * m
  {}

  lemma QuotientWithin(k: int, r: int, m: int, c: int, reject: int)
    requires m > 0 && 0 <= r < m && 0 <= reject < m && reject <= k * m + r < c * m + reject
    ensures 0 <= k <= c && (k == c ==> r < reject) && (k == 0 ==> r >= reject)
  {
    if k > c {
      Monotone(c + 1, k, m);
    } else if k < 0 {
      Monotone(k, -1, m);
    }
  }

  /** Every word kept is one of these. */
  lemma WordFound(m: int, v: int) returns (t: nat)
    requires 0 < m < TWO64 && Usable(m, v)
    ensures t < Cycles(m) && v == Word(m, v % m, t)
  {
    WholeCycles(m);
    var k, r := v / m, v % m;
    QuotientWithin(k, r, m, Cycles(m), Reject(m));
    t := if r >= Reject(m) then k else k - 1;
  }

  ghost function WordsFor(m: int, r: nat): set<Uint64>
    requires 0 < m < TWO64
  {
    set v: Uint64 | 0 <= v < TWO64 && Usable(m, v) && v % m == r
  }

  ghost function FirstWords(m: int, r: nat, n: nat): set<nat>
    requires 0 < m < TWO64
  {
    set t: nat | t < n :: Word(m, r, t)
  }

  lemma {:induction false} FirstWordsCount(m: int, r: nat, n: nat)
    requires 0 < m < TWO64
    ensures |FirstWords(m, r, n)| == n
  {
    if n > 0 {
      FirstWordsCount(m, r, n - 1);
      var w := Word(m, r, n - 1);
      forall t: nat | t < n - 1 ensures Word(m, r, t) < w {
        Monotone(t + 1, n - 1, m);
      }
      assert w !in FirstWords(m, r, n - 1);
      assert FirstWords(m, r, n) == FirstWords(m, r, n - 1) + {w};
    } else {
      assert FirstWords(m, r, 0) == {};
    }
  }

  /** Every remainder is given by the same number of words. */
  lemma BelowIsUniform(m: int, r: nat)
    requires 0 < m < TWO64 && r < m
    ensures |WordsFor(m, r)| == Cycles(m) && Cycles(m) > 0
  {
    var c := Cycles(m);
    FirstWordsCount(m, r, c);
    forall v: nat ensures v in WordsFor(m, r) <==> v in FirstWords(m, r, c) {
      if v in WordsFor(m, r) {
        var t := WordFound(m, v);
      }
      if v in FirstWords(m, r, c) {
        var t: nat :| t < c && v == Word(m, r, t);
        WordUsable(m, r, t);
      }
    }
    assert WordsFor(m, r) == FirstWords(m, r, c);
    WholeCycles(m);
  }

  // --------------------------------------------------- drawing without replacement

  predicate Distinct(s: seq<nat>) {
    forall i, j :: 0 <= i < j < |s| ==> s[i] != s[j]
  }

  /** What is left to draw from once the j-th is taken: the first moves into its place. */
  function Left(rest: seq<nat>, j: nat): (s: seq<nat>)
    requires j < |rest|
    ensures |s| == |rest| - 1
  {
    rest[j := rest[0]][1..]
  }

  /** One draw for each place, below what is left at that place. */
  predicate InRange(draws: seq<nat>, m: nat) {
    |draws| <= m && forall i :: 0 <= i < |draws| ==> draws[i] < m - i
  }

  function Deal(rest: seq<nat>, draws: seq<nat>): (path: seq<nat>)
    requires InRange(draws, |rest|)
    ensures |path| == |draws|
    decreases |draws|
  {
    if draws == [] then [] else [rest[draws[0]]] + Deal(Left(rest, draws[0]), Tail(draws, |rest|))
  }

  function Tail(draws: seq<nat>, m: nat): (t: seq<nat>)
    requires draws != [] && InRange(draws, m)
    ensures t == draws[1..] && InRange(t, m - 1)
  {
    assert forall i :: 0 <= i < |draws| - 1 ==> draws[1..][i] == draws[i + 1];
    draws[1..]
  }

  function Place(rest: seq<nat>, x: nat): (j: nat)
    requires x in rest
    ensures j < |rest| && rest[j] == x
  {
    if rest[0] == x then 0 else 1 + Place(rest[1..], x)
  }

  lemma LeftHas(rest: seq<nat>, j: nat, x: nat)
    requires Distinct(rest) && j < |rest|
    ensures x in Left(rest, j) <==> x in rest && x != rest[j]
  {
    var left := Left(rest, j);
    if x in left {
      var i :| 0 <= i < |left| && left[i] == x;
      assert x == if i + 1 == j then rest[0] else rest[i + 1];
    }
    if x in rest && x != rest[j] {
      var i :| 0 <= i < |rest| && rest[i] == x;
      if i == 0 {
        assert left[j - 1] == x;
      } else {
        assert left[i - 1] == x;
      }
    }
  }

  lemma LeftDistinct(rest: seq<nat>, j: nat)
    requires Distinct(rest) && j < |rest|
    ensures Distinct(Left(rest, j))
  {
    var left := Left(rest, j);
    forall a, b | 0 <= a < b < |left| ensures left[a] != left[b] {
      assert left[a] == if a + 1 == j then rest[0] else rest[a + 1];
      assert left[b] == if b + 1 == j then rest[0] else rest[b + 1];
    }
  }

  /** The path those draws deal is without repetition, out of what there was. */
  lemma {:induction false} DealDistinct(rest: seq<nat>, draws: seq<nat>)
    requires Distinct(rest) && InRange(draws, |rest|)
    ensures Distinct(Deal(rest, draws)) && forall x :: x in Deal(rest, draws) ==> x in rest
    decreases |draws|
  {
    if draws != [] {
      var j, tail := draws[0], Tail(draws, |rest|);
      LeftDistinct(rest, j);
      DealDistinct(Left(rest, j), tail);
      forall x | x in Deal(Left(rest, j), tail) ensures x in rest && x != rest[j] {
        LeftHas(rest, j, x);
      }
      DistinctCons(rest[j], Deal(Left(rest, j), tail));
    }
  }

  lemma DistinctCons(x: nat, s: seq<nat>)
    requires Distinct(s) && x !in s
    ensures Distinct([x] + s)
  {}

  /** A path without repetition, out of what there is. */
  predicate PathIn(rest: seq<nat>, path: seq<nat>) {
    Distinct(path) && forall x :: x in path ==> x in rest
  }

  lemma PathTail(rest: seq<nat>, path: seq<nat>)
    requires Distinct(rest) && PathIn(rest, path) && path != []
    ensures path[0] in rest && PathIn(Left(rest, Place(rest, path[0])), path[1..])
  {
    forall x | x in path[1..] ensures x in Left(rest, Place(rest, path[0])) {
      LeftHas(rest, Place(rest, path[0]), x);
    }
  }

  /** The draws that deal a path. */
  ghost function DrawsFor(rest: seq<nat>, path: seq<nat>): (draws: seq<nat>)
    requires Distinct(rest) && PathIn(rest, path)
    decreases |path|
  {
    if path == [] then []
    else
      PathTail(rest, path);
      var j := Place(rest, path[0]);
      LeftDistinct(rest, j);
      [j] + DrawsFor(Left(rest, j), path[1..])
  }

  /** Every path is dealt by its draws. */
  lemma {:induction false} EveryPathDealt(rest: seq<nat>, path: seq<nat>)
    requires Distinct(rest) && PathIn(rest, path)
    ensures InRange(DrawsFor(rest, path), |rest|) && Deal(rest, DrawsFor(rest, path)) == path
    decreases |path|
  {
    if path != [] {
      PathTail(rest, path);
      var j := Place(rest, path[0]);
      LeftDistinct(rest, j);
      EveryPathDealt(Left(rest, j), path[1..]);
      var tail := DrawsFor(Left(rest, j), path[1..]);
      assert DrawsFor(rest, path) == [j] + tail;
      assert ([j] + tail)[1..] == tail;
    }
  }

  lemma PlaceIs(rest: seq<nat>, j: nat)
    requires Distinct(rest) && j < |rest|
    ensures Place(rest, rest[j]) == j
  {
    var k := Place(rest, rest[j]);
    assert k < j || k == j || j < k;
  }

  /** And by no others. */
  lemma {:induction false} DealtOnlySo(rest: seq<nat>, draws: seq<nat>)
    requires Distinct(rest) && InRange(draws, |rest|)
    ensures PathIn(rest, Deal(rest, draws)) && DrawsFor(rest, Deal(rest, draws)) == draws
    decreases |draws|
  {
    DealDistinct(rest, draws);
    if draws != [] {
      var j, tail := draws[0], Tail(draws, |rest|);
      LeftDistinct(rest, j);
      DealtOnlySo(Left(rest, j), tail);
      PlaceIs(rest, j);
      assert Deal(rest, draws)[1..] == Deal(Left(rest, j), tail);
      assert draws == [j] + tail;
    }
  }

  // --------------------------------------------------------------------- a path

  /** The nodes besides the entry, in order. */
  function Others(n: nat, entry: nat): (s: seq<nat>)
    ensures |s| == if entry < n then n - 1 else n
    ensures Distinct(s) && forall x: nat :: x in s <==> x < n && x != entry
  {
    if n == 0 then []
    else if n - 1 == entry then Others(n - 1, entry)
    else
      DistinctSnoc(Others(n - 1, entry), n - 1);
      Others(n - 1, entry) + [n - 1]
  }

  lemma DistinctSnoc(s: seq<nat>, x: nat)
    requires Distinct(s) && x !in s
    ensures Distinct(s + [x])
  {}

  /** So many draws, each below one less than the draw before it. */
  function DrawMany(rnd: Bytes, m: nat, k: nat): (r: (Result<seq<nat>, Failure>, Bytes))
    requires k <= m < TWO64
    ensures r.0.Ok? ==> |r.0.value| == k && InRange(r.0.value, m)
    decreases k
  {
    if k == 0 then (Ok([]), rnd)
    else
      var (first, rest) := Below(rnd, m, MAX_DRAWS);
      if first.Err? then (Err(first.error), rest)
      else
        var (more, end) := DrawMany(rest, m - 1, k - 1);
        if more.Err? then (more, end) else (Ok([first.value] + more.value), end)
  }

  /** ChooseRest: the path that starts at entry, or why there is none. */
  function PathFrom(entry: int, n: int, hops: int, rnd: Bytes): (r: (Result<seq<nat>, Failure>, Bytes))
    requires n < TWO63
  {
    if hops < 1 || hops > n || entry < 0 || entry >= n then (Err(NoSuchChoice), rnd)
    else
      var (draws, end) := DrawMany(rnd, n - 1, hops - 1);
      (if draws.Err? then Err(draws.error) else Ok([entry] + Deal(Others(n, entry), draws.value)), end)
  }

  function Remaining(rest: seq<nat>, draws: seq<nat>): (left: seq<nat>)
    requires InRange(draws, |rest|)
    ensures |left| == |rest| - |draws|
    decreases |draws|
  {
    if draws == [] then rest else Remaining(Left(rest, draws[0]), Tail(draws, |rest|))
  }

  lemma {:induction false} DealSnoc(rest: seq<nat>, draws: seq<nat>, j: nat)
    requires |draws| < |rest| && InRange(draws, |rest|) && j < |rest| - |draws|
    ensures InRange(draws + [j], |rest|)
    ensures Deal(rest, draws + [j]) == Deal(rest, draws) + [Remaining(rest, draws)[j]]
    ensures Remaining(rest, draws + [j]) == Left(Remaining(rest, draws), j)
    decreases |draws|
  {
    if draws == [] {
      assert ([] + [j])[1..] == [];
    } else {
      DealSnoc(Left(rest, draws[0]), Tail(draws, |rest|), j);
      assert (draws + [j])[1..] == draws[1..] + [j];
    }
  }

  method ListOthers(n: nat, entry: nat) returns (others: array<nat>)
    requires entry < n
    ensures fresh(others) && others[..] == Others(n, entry)
  {
    others := new nat[n - 1];
    var k := 0;
    for i := 0 to n
      invariant k == |Others(i, entry)| && k <= n - 1
      invariant others[..k] == Others(i, entry)
    {
      if i != entry {
        others[k] := i;
        k := k + 1;
      }
    }
    assert others[..k] == others[..];
  }

  /** Prepends what was drawn already. */
  function Prepend(seen: seq<nat>, r: (Result<seq<nat>, Failure>, Bytes)): (Result<seq<nat>, Failure>, Bytes) {
    if r.0.Err? then r else (Ok(seen + r.0.value), r.1)
  }

  lemma PrependStep(seen: seq<nat>, bytes: Bytes, m: nat, k: nat)
    requires 0 < k <= m < TWO64
    ensures var (first, rest) := Below(bytes, m, MAX_DRAWS);
            Prepend(seen, DrawMany(bytes, m, k)) ==
            if first.Err? then (Err(first.error), rest) else Prepend(seen + [first.value], DrawMany(rest, m - 1, k - 1))
  {
    var (first, rest) := Below(bytes, m, MAX_DRAWS);
    if first.Ok? {
      var (more, end) := DrawMany(rest, m - 1, k - 1);
      if more.Ok? {
        assert seen + ([first.value] + more.value) == (seen + [first.value]) + more.value;
      }
    }
  }

  lemma SwapLeaves(before: seq<nat>, after: seq<nat>, i: nat, j: nat)
    requires i + j < |before| && after == before[i := before[i + j]][i + j := before[i]]
    ensures after[i] == before[i..][j] && after[i + 1..] == Left(before[i..], j)
  {}

  method Swap(others: array<nat>, i: nat, j: nat)
    requires i + j < others.Length
    modifies others
    ensures others[i] == old(others[i..])[j] && others[i + 1..] == Left(old(others[i..]), j)
  {
    ghost var before := others[..];
    others[i], others[i + j] := others[i + j], others[i];
    SwapLeaves(before, others[..], i, j);
    assert before[i..] == old(others[i..]);
  }

  lemma PrependNothing(r: (Result<seq<nat>, Failure>, Bytes))
    ensures Prepend([], r) == r
  {
    if r.0.Ok? {
      assert [] + r.0.value == r.0.value;
    }
  }

  /** Where the shuffle stands after the draws seen. */
  ghost predicate Dealing(all: seq<nat>, seen: seq<nat>, path: seq<nat>, left: seq<nat>) {
    InRange(seen, |all|) && path == Deal(all, seen) && left == Remaining(all, seen)
  }

  lemma DealtOne(all: seq<nat>, seen: seq<nat>, path: seq<nat>, left: seq<nat>, j: nat)
    requires Dealing(all, seen, path, left) && j < |left|
    ensures Dealing(all, seen + [j], path + [left[j]], Left(left, j))
  {
    DealSnoc(all, seen, j);
  }

  /** One step of the shuffle, in place. */
  method DealNext(others: array<nat>, i: nat, j: nat, path: seq<nat>, ghost all: seq<nat>, ghost seen: seq<nat>) returns (longer: seq<nat>)
    requires i + j < others.Length && Dealing(all, seen, path, others[i..])
    modifies others
    ensures Dealing(all, seen + [j], longer, others[i + 1..])
  {
    DealtOne(all, seen, path, others[i..], j);
    Swap(others, i, j);
    longer := path + [others[i]];
  }

  /** What was drawn and what the source still holds lead where the whole row of draws leads. */
  ghost predicate OnCourse(whole: (Result<seq<nat>, Failure>, Bytes), seen: seq<nat>, bytes: Bytes, m: nat, k: nat)
    requires k <= m < TWO64
  {
    whole == Prepend(seen, DrawMany(bytes, m, k))
  }

  lemma CourseStarts(bytes: Bytes, m: nat, k: nat)
    requires k <= m < TWO64
    ensures OnCourse(DrawMany(bytes, m, k), [], bytes, m, k)
  {
    PrependNothing(DrawMany(bytes, m, k));
  }

  lemma CourseGoesOn(whole: (Result<seq<nat>, Failure>, Bytes), seen: seq<nat>, bytes: Bytes, m: nat, k: nat)
    requires 0 < k <= m < TWO64 && OnCourse(whole, seen, bytes, m, k)
    ensures var (d, rest) := Below(bytes, m, MAX_DRAWS);
            if d.Err? then whole == (Err(d.error), rest) else OnCourse(whole, seen + [d.value], rest, m - 1, k - 1)
  {
    PrependStep(seen, bytes, m, k);
  }

  lemma CourseEnds(whole: (Result<seq<nat>, Failure>, Bytes), seen: seq<nat>, bytes: Bytes, m: nat)
    requires m < TWO64 && OnCourse(whole, seen, bytes, m, 0)
    ensures whole == (Ok(seen), bytes)
  {
    assert seen + [] == seen;
  }

  /** The first steps of a shuffle. */
  method DealOut(others: array<nat>, k: nat, rnd: Source) returns (r: Result<seq<nat>, Failure>)
    requires k <= others.Length < TWO63
    modifies rnd, others
    ensures var (draws, end) := DrawMany(old(rnd.bytes), others.Length, k);
            && rnd.bytes == end
            && r == if draws.Err? then Err(draws.error) else Ok(Deal(old(others[..]), draws.value))
  {
    ghost var all, seen, whole := others[..], [], DrawMany(rnd.bytes, others.Length, k);
    var path, i := [], 0;
    CourseStarts(rnd.bytes, others.Length, k);
    while i < k
      invariant 0 <= i <= k && |seen| == i && Dealing(all, seen, path, others[i..])
      invariant OnCourse(whole, seen, rnd.bytes, others.Length - i, k - i)
    {
      CourseGoesOn(whole, seen, rnd.bytes, others.Length - i, k - i);
      var d := rnd.DrawBelow(others.Length - i);
      if d.Err? {
        return Err(d.error);
      }
      path := DealNext(others, i, d.value, path, all, seen);
      seen, i := seen + [d.value], i + 1;
    }
    CourseEnds(whole, seen, rnd.bytes, others.Length - i);
    r := Ok(path);
  }

  method ChooseRest(entry: int, n: int, hops: int, rnd: Source) returns (r: Result<seq<nat>, Failure>)
    requires n < TWO63
    modifies rnd
    ensures (r, rnd.bytes) == PathFrom(entry, n, hops, old(rnd.bytes))
  {
    if hops < 1 || hops > n || entry < 0 || entry >= n {
      return Err(NoSuchChoice);
    }
    var others := ListOthers(n, entry);
    r := DealOut(others, hops - 1, rnd);
    if r.Ok? {
      r := Ok([entry] + r.value);
    }
  }

  method ChooseEntry(n: int, rnd: Source) returns (r: Result<nat, Failure>)
    requires n < TWO63
    modifies rnd
    ensures n < 1 ==> r == Err(NoSuchChoice) && rnd.bytes == old(rnd.bytes)
    ensures n >= 1 ==> (r, rnd.bytes) == Below(old(rnd.bytes), n, MAX_DRAWS)
  {
    if n < 1 {
      return Err(NoSuchChoice);
    }
    r := rnd.DrawBelow(n);
  }

  /** A path as a client may take: so many hops, the entry first, no node twice. */
  predicate Path(n: nat, hops: nat, entry: nat, path: seq<nat>) {
    |path| == hops >= 1 && path[0] == entry && Distinct(path) && forall x :: x in path ==> x < n
  }

  lemma PathBehind(n: nat, hops: nat, entry: nat, path: seq<nat>)
    requires entry < n && |path| == hops >= 1 && path[0] == entry
    ensures Path(n, hops, entry, path) <==> PathIn(Others(n, entry), path[1..])
  {
    var rest := path[1..];
    assert path == [entry] + rest;
    if Path(n, hops, entry, path) {
      forall x: nat | x in rest ensures x in Others(n, entry) {
        var i :| 0 <= i < |rest| && rest[i] == x;
        assert path[i + 1] == x && path[0] != x && x in path;
      }
    }
    if PathIn(Others(n, entry), rest) {
      DistinctCons(entry, rest);
    }
  }

  lemma DealtIsPath(n: nat, hops: nat, entry: nat, d: seq<nat>)
    requires entry < n && 1 <= hops <= n && |d| == hops - 1 && InRange(d, n - 1)
    ensures Path(n, hops, entry, [entry] + Deal(Others(n, entry), d))
  {
    var all := Others(n, entry);
    var p := [entry] + Deal(all, d);
    DealtOnlySo(all, d);
    assert p[1..] == Deal(all, d);
    PathBehind(n, hops, entry, p);
  }

  lemma PathIsDealt(n: nat, hops: nat, entry: nat, p: seq<nat>)
    requires entry < n && 1 <= hops <= n && Path(n, hops, entry, p)
    ensures exists d :: |d| == hops - 1 && InRange(d, n - 1) && p == [entry] + Deal(Others(n, entry), d)
  {
    var all := Others(n, entry);
    PathBehind(n, hops, entry, p);
    EveryPathDealt(all, p[1..]);
    assert p == [entry] + Deal(all, DrawsFor(all, p[1..]));
  }

  lemma DrawsDealApart(rest: seq<nat>, d: seq<nat>, e: seq<nat>)
    requires Distinct(rest) && InRange(d, |rest|) && InRange(e, |rest|) && Deal(rest, d) == Deal(rest, e)
    ensures d == e
  {
    DealtOnlySo(rest, d);
    DealtOnlySo(rest, e);
  }

  /**
   The draws and the paths from an entry correspond one to one: draws in range deal
   a path, every path is dealt by some draws, and different draws deal different paths.
   */
  lemma DrawsAndPaths(n: nat, hops: nat, entry: nat)
    requires entry < n && 1 <= hops <= n
    ensures forall d :: |d| == hops - 1 && InRange(d, n - 1) ==> Path(n, hops, entry, [entry] + Deal(Others(n, entry), d))
    ensures forall p :: Path(n, hops, entry, p) ==>
              exists d :: |d| == hops - 1 && InRange(d, n - 1) && p == [entry] + Deal(Others(n, entry), d)
    ensures forall d, e :: InRange(d, n - 1) && InRange(e, n - 1) && Deal(Others(n, entry), d) == Deal(Others(n, entry), e) ==> d == e
  {
    forall d | |d| == hops - 1 && InRange(d, n - 1) ensures Path(n, hops, entry, [entry] + Deal(Others(n, entry), d)) {
      DealtIsPath(n, hops, entry, d);
    }
    forall p | Path(n, hops, entry, p)
      ensures exists d :: |d| == hops - 1 && InRange(d, n - 1) && p == [entry] + Deal(Others(n, entry), d)
    {
      PathIsDealt(n, hops, entry, p);
    }
    forall d, e | InRange(d, n - 1) && InRange(e, n - 1) && Deal(Others(n, entry), d) == Deal(Others(n, entry), e) ensures d == e {
      DrawsDealApart(Others(n, entry), d, e);
    }
  }

  lemma PathFromIsPath(entry: int, n: int, hops: int, rnd: Bytes)
    requires n < TWO63 && PathFrom(entry, n, hops, rnd).0.Ok?
    ensures 0 <= entry < n && 1 <= hops <= n && Path(n, hops, entry, PathFrom(entry, n, hops, rnd).0.value)
  {
    DrawsAndPaths(n, hops, entry);
  }

  /** Choose: an entry below n, then the rest of the path behind it. */
  function WholePath(n: int, hops: int, rnd: Bytes): (r: (Result<seq<nat>, Failure>, Bytes))
    requires n < TWO63
  {
    if hops < 1 || hops > n then (Err(NoSuchChoice), rnd)
    else
      var (entry, rest) := Below(rnd, n, MAX_DRAWS);
      if entry.Err? then (Err(entry.error), rest) else PathFrom(entry.value, n, hops, rest)
  }

  method ChoosePath(n: int, hops: int, rnd: Source) returns (r: Result<seq<nat>, Failure>)
    requires n < TWO63
    modifies rnd
    ensures (r, rnd.bytes) == WholePath(n, hops, old(rnd.bytes))
    ensures r.Ok? ==> r.value != [] && Path(n, hops, r.value[0], r.value)
  {
    if hops < 1 || hops > n {
      return Err(NoSuchChoice);
    }
    var entry := ChooseEntry(n, rnd);
    if entry.Err? {
      return Err(entry.error);
    }
    ghost var rest := rnd.bytes;
    r := ChooseRest(entry.value, n, hops, rnd);
    if r.Ok? {
      PathFromIsPath(entry.value, n, hops, rest);
    }
  }

  // ----------------------------------------------------------- judging a mirror

  datatype Verdict = Taken | LacksEntry | LacksTooMany

  function Held(served: seq<bool>): (n: nat)
    ensures n <= |served|
  {
    if served == [] then 0 else Held(served[..|served| - 1]) + if served[|served| - 1] then 1 else 0
  }

  /** The nodes a mirror holds. */
  function HeldNodes(served: seq<bool>): set<nat> {
    set i: nat | i < |served| && served[i]
  }

  lemma {:induction false} HeldCounts(served: seq<bool>)
    ensures Held(served) == |HeldNodes(served)|
    decreases |served|
  {
    if served == [] {
      assert HeldNodes(served) == {};
    } else {
      var last := |served| - 1;
      HeldCounts(served[..last]);
      assert HeldNodes(served) == HeldNodes(served[..last]) + if served[last] then {last} else {};
    }
  }

  /** Taken exactly when it holds the entry, lacks no more than allowed and still holds enough for the chain. */
  method JudgeMirror(served: seq<bool>, entry: int, hops: int, missing: int) returns (v: Verdict, absent: int, allowed: int)
    ensures absent == |served| - |HeldNodes(served)|
    ensures v == Taken <==> 0 <= entry < |served| && served[entry] && absent <= missing && |HeldNodes(served)| >= hops
    ensures v == LacksEntry <==> !(0 <= entry < |served| && served[entry])
    ensures absent <= allowed <==> absent <= missing && |HeldNodes(served)| >= hops
    ensures allowed <= missing && allowed <= |served| - hops && (allowed == missing || allowed == |served| - hops)
  {
    HeldCounts(served);
    absent := 0;
    for i := 0 to |served|
      invariant absent == i - Held(served[..i])
    {
      assert served[..i + 1][..i] == served[..i];
      if !served[i] {
        absent := absent + 1;
      }
    }
    assert served[..|served|] == served;
    allowed := if missing <= |served| - hops then missing else |served| - hops;
    if entry < 0 || entry >= |served| || !served[entry] {
      return LacksEntry, absent, allowed;
    }
    if absent > allowed {
      return LacksTooMany, absent, allowed;
    }
    return Taken, absent, allowed;
  }
}
