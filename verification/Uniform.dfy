/** Every ordered path is drawn from the same number of random streams (client/choose.go). */
module Uniform {
  import opened Results
  import opened ByteStrings
  import opened Choose

  /** A stream of 64-bit words, as the bytes of a random source. */
  function Encode(words: seq<Uint64>): (b: Bytes)
    ensures |b| == 8 * |words|
  {
    if words == [] then [] else U64(words[0]) + Encode(words[1..])
  }

  lemma WordRead(w: Uint64, words: seq<Uint64>, tail: Bytes)
    ensures var b := Encode([w] + words) + tail;
            |b| >= 8 && FromU64(b[..8]) == w && b[8..] == Encode(words) + tail
  {
    var b := Encode([w] + words) + tail;
    assert ([w] + words)[1..] == words;
    assert b == U64(w) + (Encode(words) + tail);
    assert b[..8] == U64(w) && b[8..] == Encode(words) + tail;
    U64RoundTrip(w);
  }

  // ------------------------------------------------------------- sets of streams

  ghost function Joined(a: set<Uint64>, b: set<seq<Uint64>>): set<seq<Uint64>> {
    set w, t | w in a && t in b :: [w] + t
  }

  ghost function JoinedTo(w: Uint64, b: set<seq<Uint64>>): set<seq<Uint64>> {
    set t | t in b :: [w] + t
  }

  lemma {:induction false} JoinedToSize(w: Uint64, b: set<seq<Uint64>>)
    ensures |JoinedTo(w, b)| == |b|
    decreases |b|
  {
    if b == {} {
      assert JoinedTo(w, b) == {};
    } else {
      var t :| t in b;
      JoinedToSize(w, b - {t});
      forall u | u in b - {t} ensures [w] + u != [w] + t {
        assert ([w] + u)[1..] == u;
        assert ([w] + t)[1..] == t;
      }
      assert JoinedTo(w, b) == JoinedTo(w, b - {t}) + {[w] + t};
    }
  }

  lemma {:induction false} JoinedSize(a: set<Uint64>, b: set<seq<Uint64>>)
    ensures |Joined(a, b)| == |a| * |b|
    decreases |a|
  {
    if a != {} {
      var w :| w in a;
      var rest := a - {w};
      JoinedSize(rest, b);
      JoinedToSize(w, b);
      assert Joined(a, b) == Joined(rest, b) + JoinedTo(w, b);
      forall x | x in Joined(rest, b) ensures x !in JoinedTo(w, b) {
        assert x[0] in rest;
      }
      assert |Joined(a, b)| == |rest| * |b| + |b|;
      OneMoreTimes(|rest|, |b|, |a|);
    } else {
      assert Joined(a, b) == {};
    }
  }

  lemma OneMoreTimes(x: int, y: int, z: int)
    requires z == x + 1
    ensures z * y == x * y + y
  {}

  lemma JoinedHas(a: set<Uint64>, b: set<seq<Uint64>>, w: Uint64, t: seq<Uint64>)
    ensures [w] + t in Joined(a, b) <==> w in a && t in b
  {
    if [w] + t in Joined(a, b) {
      var v, u :| v in a && u in b && [v] + u == [w] + t;
      assert ([v] + u)[0] == v && ([v] + u)[1..] == u;
      assert ([w] + t)[0] == w && ([w] + t)[1..] == t;
    }
  }

  predicate Under(v: int, n: int) {
    v < n
  }

  /** The words below a bound. */
  ghost function WordsUnder(n: nat): set<Uint64> {
    set v: Uint64 | 0 <= v < TWO64 && Under(v, n)
  }

  lemma {:induction false} WordsUnderCount(n: nat)
    requires n <= TWO64
    ensures |WordsUnder(n)| == n
  {
    if n == 0 {
      assert WordsUnder(0) == {};
    } else {
      WordsUnderCount(n - 1);
      assert WordsUnder(n) == WordsUnder(n - 1) + {n - 1};
    }
  }

  /** All streams of k words. */
  ghost function AllStreams(k: nat): set<seq<Uint64>> {
    if k == 0 then {[]} else Joined(WordsUnder(TWO64), AllStreams(k - 1))
  }

  function Power(k: nat): nat {
    if k == 0 then 1 else TWO64 * Power(k - 1)
  }

  lemma {:induction false} AllStreamsCount(k: nat)
    ensures |AllStreams(k)| == Power(k)
  {
    if k > 0 {
      AllStreamsCount(k - 1);
      WordsUnderCount(TWO64);
      JoinedSize(WordsUnder(TWO64), AllStreams(k - 1));
    }
  }

  lemma {:induction false} AllStreamsHas(words: seq<Uint64>, k: nat)
    ensures words in AllStreams(k) <==> |words| == k
    decreases k
  {
    if k > 0 {
      if words == [] {
        forall x | x in AllStreams(k) ensures x != [] {
          assert x in Joined(WordsUnder(TWO64), AllStreams(k - 1));
        }
      } else {
        AllStreamsHas(words[1..], k - 1);
        assert words == [words[0]] + words[1..];
        JoinedHas(WordsUnder(TWO64), AllStreams(k - 1), words[0], words[1..]);
      }
    }
  }

  // ------------------------------------------------- the streams that give draws

  /** The words that are no use for a draw below m. */
  ghost function Thrown(m: int): set<Uint64>
    requires 0 < m < TWO64
  {
    set v: Uint64 | 0 <= v < TWO64 && !Usable(m, v)
  }

  /** How many words are thrown away, and how many give each remainder. */
  ghost function Lost(m: int): nat
    requires 0 < m < TWO64
  {
    |Thrown(m)|
  }

  ghost function Kept(m: int): nat
    requires 0 < m < TWO64
  {
    |WordsFor(m, 0)|
  }

  lemma LostAndKept(m: int)
    requires 0 < m < TWO64
    ensures Lost(m) == Reject(m) && Kept(m) == Cycles(m)
  {
    assert Thrown(m) == WordsUnder(Reject(m));
    WordsUnderCount(Reject(m));
    BelowIsUniform(m, 0);
  }

  lemma KeptEach(m: int, r: nat)
    requires 0 < m < TWO64 && r < m
    ensures |WordsFor(m, r)| == Kept(m)
  {
    BelowIsUniform(m, r);
    BelowIsUniform(m, 0);
  }

  /** Every word is thrown away or taken for one draw. */
  lemma WordPlaces(m: int, r: nat, w: Uint64)
    requires 0 < m < TWO64
    ensures w in Thrown(m) <==> w < Reject(m)
    ensures w in WordsFor(m, r) <==> w !in Thrown(m) && w % m == r
  {}

  /** DrawMany with so many tries left for its first draw. */
  function DrawOn(rnd: Bytes, m: nat, k: nat, tries: nat): Result<seq<nat>, Failure>
    requires k <= m < TWO64
  {
    if k == 0 then Ok([])
    else
      var (first, rest) := Below(rnd, m, tries);
      if first.Err? then Err(first.error)
      else
        var more := DrawMany(rest, m - 1, k - 1).0;
        if more.Err? then more else Ok([first.value] + more.value)
  }

  lemma DrawOnIsDrawMany(rnd: Bytes, m: nat, k: nat)
    requires k <= m < TWO64
    ensures DrawOn(rnd, m, k, MAX_DRAWS) == DrawMany(rnd, m, k).0
  {}

  /** One stream, and part of a word behind it, from which these draws come out. */
  ghost predicate Gives(words: seq<Uint64>, tail: Bytes, m: nat, draws: seq<nat>, tries: nat)
    requires |draws| <= m < TWO64
  {
    DrawOn(Encode(words) + tail, m, |draws|, tries) == Ok(draws)
  }

  /** All such streams of k words. */
  ghost function StreamsFor(m: nat, draws: seq<nat>, tries: nat, k: nat, tail: Bytes): set<seq<Uint64>>
    requires |draws| <= m < TWO64
  {
    set words | words in AllStreams(k) && Gives(words, tail, m, draws, tries)
  }

  /** x, n times over. */
  function Copies(n: nat, x: nat): nat {
    if n == 0 then 0 else Copies(n - 1, x) + x
  }

  lemma {:induction false} CopiesIsProduct(n: nat, x: nat)
    ensures Copies(n, x) == n * x
  {
    if n > 0 {
      CopiesIsProduct(n - 1, x);
      OneMoreTimes(n - 1, x, n);
    }
  }

  /** How many there are, which does not depend on the draws. */
  ghost function Streams(m: nat, count: nat, tries: nat, k: nat): nat
    requires count <= m < TWO64
    decreases k
  {
    if count == 0 then Power(k)
    else if tries == 0 || k == 0 then 0
    else Copies(Lost(m), Streams(m, count, tries - 1, k - 1)) + Copies(Kept(m), Streams(m - 1, count - 1, MAX_DRAWS, k - 1))
  }

  lemma JoinedApart(a: set<Uint64>, a': set<Uint64>, b: set<seq<Uint64>>, b': set<seq<Uint64>>)
    requires forall w :: w in a ==> w !in a'
    ensures |Joined(a, b) + Joined(a', b')| == |a| * |b| + |a'| * |b'|
  {
    JoinedSize(a, b);
    JoinedSize(a', b');
    forall x | x in Joined(a, b) ensures x !in Joined(a', b') {
      assert x[0] in a;
    }
  }

  lemma FirstWordCount(m: int, r: nat, b: set<seq<Uint64>>, b': set<seq<Uint64>>, x: nat, y: nat)
    requires 0 < m < TWO64 && r < m && |b| == x && |b'| == y
    ensures |Joined(Thrown(m), b) + Joined(WordsFor(m, r), b')| == Copies(Lost(m), x) + Copies(Kept(m), y)
  {
    forall w | w in Thrown(m) ensures w !in WordsFor(m, r) {
      WordPlaces(m, r, w);
    }
    JoinedApart(Thrown(m), WordsFor(m, r), b, b');
    KeptEach(m, r);
    CopiesIsProduct(Lost(m), x);
    CopiesIsProduct(Kept(m), y);
  }

  /** What a word in front does: thrown away it costs a try, taken it gives the first draw. */
  lemma FirstWordGives(w: Uint64, rest: seq<Uint64>, tail: Bytes, m: nat, draws: seq<nat>, tries: nat)
    requires |draws| <= m < TWO64 && draws != [] && tries > 0
    ensures Gives([w] + rest, tail, m, draws, tries) <==>
            if w in Thrown(m) then Gives(rest, tail, m, draws, tries - 1)
            else w in WordsFor(m, draws[0]) && Gives(rest, tail, m - 1, draws[1..], MAX_DRAWS)
  {
    var b := Encode(rest) + tail;
    WordRead(w, rest, tail);
    WordPlaces(m, draws[0], w);
    DrawOnIsDrawMany(b, m - 1, |draws| - 1);
    ConsIs(w % m, DrawMany(b, m - 1, |draws| - 1).0, draws);
  }

  lemma ConsIs(x: nat, more: Result<seq<nat>, Failure>, draws: seq<nat>)
    requires draws != []
    ensures (if more.Err? then more else Ok([x] + more.value)) == Ok(draws) <==> x == draws[0] && more == Ok(draws[1..])
  {
    assert draws == [draws[0]] + draws[1..];
    if more.Ok? {
      assert ([x] + more.value)[1..] == more.value && ([x] + more.value)[0] == x;
    }
  }

  lemma FirstWordIn(m: nat, draws: seq<nat>, tries: nat, k: nat, tail: Bytes, words: seq<Uint64>)
    requires |draws| <= m < TWO64 && draws != [] && tries > 0 && k > 0 && |words| == k
    ensures words in StreamsFor(m, draws, tries, k, tail) <==>
            || words in Joined(Thrown(m), StreamsFor(m, draws, tries - 1, k - 1, tail))
            || words in Joined(WordsFor(m, draws[0]), StreamsFor(m - 1, draws[1..], MAX_DRAWS, k - 1, tail))
  {
    var w, rest := words[0], words[1..];
    assert words == [w] + rest;
    AllStreamsHas(words, k);
    AllStreamsHas(rest, k - 1);
    FirstWordGives(w, rest, tail, m, draws, tries);
    WordPlaces(m, draws[0], w);
    JoinedHas(Thrown(m), StreamsFor(m, draws, tries - 1, k - 1, tail), w, rest);
    JoinedHas(WordsFor(m, draws[0]), StreamsFor(m - 1, draws[1..], MAX_DRAWS, k - 1, tail), w, rest);
  }

  lemma JoinedSizes(a: set<Uint64>, m: nat, draws: seq<nat>, tries: nat, k: nat, tail: Bytes, words: seq<Uint64>)
    requires |draws| <= m < TWO64 && words in Joined(a, StreamsFor(m, draws, tries, k, tail))
    ensures |words| == k + 1
  {
    var w, t :| w in a && t in StreamsFor(m, draws, tries, k, tail) && words == [w] + t;
    AllStreamsHas(t, k);
  }

  lemma SplitByFirst(m: nat, draws: seq<nat>, tries: nat, k: nat, tail: Bytes)
    requires |draws| <= m < TWO64 && draws != [] && tries > 0 && k > 0
    ensures StreamsFor(m, draws, tries, k, tail)
         == Joined(Thrown(m), StreamsFor(m, draws, tries - 1, k - 1, tail))
            + Joined(WordsFor(m, draws[0]), StreamsFor(m - 1, draws[1..], MAX_DRAWS, k - 1, tail))
  {
    var all := StreamsFor(m, draws, tries, k, tail);
    var lost := Joined(Thrown(m), StreamsFor(m, draws, tries - 1, k - 1, tail));
    var kept := Joined(WordsFor(m, draws[0]), StreamsFor(m - 1, draws[1..], MAX_DRAWS, k - 1, tail));
    forall words ensures words in all <==> words in lost || words in kept {
      if words in all {
        AllStreamsHas(words, k);
      }
      if words in lost {
        JoinedSizes(Thrown(m), m, draws, tries - 1, k - 1, tail, words);
      }
      if words in kept {
        JoinedSizes(WordsFor(m, draws[0]), m - 1, draws[1..], MAX_DRAWS, k - 1, tail, words);
      }
      if |words| == k {
        FirstWordIn(m, draws, tries, k, tail, words);
      }
    }
  }

  lemma StreamsStep(m: nat, draws: seq<nat>, tries: nat, k: nat, tail: Bytes, x: nat, y: nat)
    requires |draws| <= m < TWO64 && draws != [] && draws[0] < m && tries > 0 && k > 0
    requires |StreamsFor(m, draws, tries - 1, k - 1, tail)| == x && |StreamsFor(m - 1, draws[1..], MAX_DRAWS, k - 1, tail)| == y
    ensures |StreamsFor(m, draws, tries, k, tail)| == Copies(Lost(m), x) + Copies(Kept(m), y)
  {
    SplitByFirst(m, draws, tries, k, tail);
    FirstWordCount(m, draws[0], StreamsFor(m, draws, tries - 1, k - 1, tail), StreamsFor(m - 1, draws[1..], MAX_DRAWS, k - 1, tail), x, y);
  }

  /** Without draws every stream will do; without tries or words none does. */
  lemma StreamsEnd(m: nat, draws: seq<nat>, tries: nat, k: nat, tail: Bytes)
    requires |draws| <= m < TWO64 && |tail| < 8
    ensures draws == [] ==> StreamsFor(m, draws, tries, k, tail) == AllStreams(k)
    ensures draws != [] && (tries == 0 || k == 0) ==> StreamsFor(m, draws, tries, k, tail) == {}
  {
    if draws != [] && (tries == 0 || k == 0) {
      forall words | words in AllStreams(k) ensures !Gives(words, tail, m, draws, tries) {
        AllStreamsHas(words, k);
        if k == 0 {
          assert Encode(words) + tail == tail;
        }
      }
    }
  }

  lemma {:induction false} StreamsCount(m: nat, draws: seq<nat>, tries: nat, k: nat, tail: Bytes)
    requires m < TWO64 && InRange(draws, m) && |tail| < 8
    ensures |StreamsFor(m, draws, tries, k, tail)| == Streams(m, |draws|, tries, k)
    decreases k
  {
    StreamsEnd(m, draws, tries, k, tail);
    if draws == [] {
      AllStreamsCount(k);
    } else if tries > 0 && k > 0 {
      assert Tail(draws, m) == draws[1..];
      StreamsCount(m, draws, tries - 1, k - 1, tail);
      StreamsCount(m - 1, draws[1..], MAX_DRAWS, k - 1, tail);
      StreamsStep(m, draws, tries, k, tail, Streams(m, |draws|, tries - 1, k - 1), Streams(m - 1, |draws| - 1, MAX_DRAWS, k - 1));
    }
  }

  // ------------------------------------------------------------------------ paths

  /** A path as Choose may return it: so many different nodes. */
  predicate PathAmong(n: nat, hops: nat, path: seq<nat>) {
    1 <= hops && |path| == hops && Path(n, hops, path[0], path)
  }

  function Dealt(n: nat, draws: seq<nat>): seq<nat>
    requires draws != [] && InRange(draws, n)
  {
    assert Tail(draws, n) == draws[1..];
    [draws[0]] + Deal(Others(n, draws[0]), draws[1..])
  }

  /** The draws behind a path once its entry is given. */
  ghost function RestDraws(n: nat, hops: nat, path: seq<nat>): (draws: seq<nat>)
    requires PathAmong(n, hops, path)
    ensures path[0] < n && |draws| == hops - 1 && InRange(draws, n - 1) && Deal(Others(n, path[0]), draws) == path[1..]
  {
    var all := Others(n, path[0]);
    assert path[0] in path;
    PathBehind(n, hops, path[0], path);
    EveryPathDealt(all, path[1..]);
    DrawsForSize(all, path[1..]);
    DrawsFor(all, path[1..])
  }

  /** And with the entry's own draw first. */
  ghost function DrawsOf(n: nat, hops: nat, path: seq<nat>): (draws: seq<nat>)
    requires PathAmong(n, hops, path)
    ensures |draws| == hops && InRange(draws, n) && Dealt(n, draws) == path
  {
    var draws := [path[0]] + RestDraws(n, hops, path);
    assert draws[1..] == RestDraws(n, hops, path);
    assert path == [path[0]] + path[1..];
    draws
  }

  lemma DrawsForSize(all: seq<nat>, rest: seq<nat>)
    requires Distinct(all) && PathIn(all, rest) && InRange(DrawsFor(all, rest), |all|) && Deal(all, DrawsFor(all, rest)) == rest
    ensures |DrawsFor(all, rest)| == |rest|
  {}

  /** Different draws deal different paths, the entry included. */
  lemma DealtApart(n: nat, d: seq<nat>, e: seq<nat>)
    requires d != [] && e != [] && InRange(d, n) && InRange(e, n) && Dealt(n, d) == Dealt(n, e)
    ensures d == e
  {
    assert Tail(d, n) == d[1..] && Tail(e, n) == e[1..];
    assert Dealt(n, d)[0] == d[0] && Dealt(n, e)[0] == e[0];
    var all := Others(n, d[0]);
    assert Dealt(n, d)[1..] == Deal(all, d[1..]) && Dealt(n, e)[1..] == Deal(all, e[1..]);
    DealtOnlySo(all, d[1..]);
    DealtOnlySo(all, e[1..]);
    assert d == [d[0]] + d[1..] && e == [e[0]] + e[1..];
  }

  /** Choose is one row of draws, the entry's first. */
  lemma WholePathDraws(n: nat, hops: nat, rnd: Bytes)
    requires 1 <= hops <= n < TWO63
    ensures var draws := DrawMany(rnd, n, hops).0;
            WholePath(n, hops, rnd).0 == if draws.Err? then Err(draws.error) else Ok(Dealt(n, draws.value))
  {
    var draws := DrawMany(rnd, n, hops).0;
    if draws.Ok? {
      var (first, rest) := Below(rnd, n, MAX_DRAWS);
      var more := DrawMany(rest, n - 1, hops - 1).0;
      assert draws.value == [first.value] + more.value;
      assert draws.value[1..] == more.value;
    }
  }

  lemma WholePathGives(n: nat, hops: nat, path: seq<nat>, rnd: Bytes)
    requires 1 <= hops <= n < TWO63 && PathAmong(n, hops, path)
    ensures WholePath(n, hops, rnd).0 == Ok(path) <==> DrawMany(rnd, n, hops).0 == Ok(DrawsOf(n, hops, path))
  {
    WholePathDraws(n, hops, rnd);
    var draws := DrawMany(rnd, n, hops).0;
    if draws.Ok? && Dealt(n, draws.value) == path {
      DealtApart(n, draws.value, DrawsOf(n, hops, path));
    }
  }

  /** The streams of k words, with this part of a word behind them, on which Choose returns a path. */
  ghost function StreamsGiving(n: nat, hops: nat, path: seq<nat>, k: nat, tail: Bytes): set<seq<Uint64>>
    requires n < TWO63
  {
    set words | words in AllStreams(k) && WholePath(n, hops, Encode(words) + tail).0 == Ok(path)
  }

  /**
   For every stream length, the number of streams on which Choose returns a path is
   the same for all ordered paths of different nodes: the entry is drawn too, words
   may be thrown away, and a source may run out or give up.
   */
  lemma PathsEquallyLikely(n: nat, hops: nat, path: seq<nat>, k: nat, tail: Bytes)
    requires 1 <= hops <= n < TWO63 && PathAmong(n, hops, path) && |tail| < 8
    ensures |StreamsGiving(n, hops, path, k, tail)| == Streams(n, hops, MAX_DRAWS, k)
  {
    var draws := DrawsOf(n, hops, path);
    forall words ensures words in StreamsGiving(n, hops, path, k, tail) <==> words in StreamsFor(n, draws, MAX_DRAWS, k, tail) {
      WholePathGives(n, hops, path, Encode(words) + tail);
      DrawOnIsDrawMany(Encode(words) + tail, n, hops);
    }
    assert StreamsGiving(n, hops, path, k, tail) == StreamsFor(n, draws, MAX_DRAWS, k, tail);
    StreamsCount(n, draws, MAX_DRAWS, k, tail);
  }

  // ------------------------------------------------- from a given entry, and least words

  lemma RestGives(n: nat, hops: nat, path: seq<nat>, b: Bytes)
    requires 1 <= hops <= n < TWO63 && PathAmong(n, hops, path)
    ensures PathFrom(path[0], n, hops, b).0 == Ok(path) <==> DrawMany(b, n - 1, hops - 1).0 == Ok(RestDraws(n, hops, path))
  {
    var draws, all := RestDraws(n, hops, path), Others(n, path[0]);
    var got := DrawMany(b, n - 1, hops - 1).0;
    assert path == [path[0]] + path[1..];
    if got.Ok? {
      assert ([path[0]] + Deal(all, got.value))[1..] == Deal(all, got.value);
      if Deal(all, got.value) == path[1..] {
        DrawsDealApart(all, got.value, draws);
      }
    }
  }

  ghost function RestStreams(n: nat, hops: nat, path: seq<nat>, k: nat, tail: Bytes): set<seq<Uint64>>
    requires n < TWO63 && path != []
  {
    set words | words in AllStreams(k) && PathFrom(path[0], n, hops, Encode(words) + tail).0 == Ok(path)
  }

  /** ChooseRest likewise, behind a given entry. */
  lemma RestEquallyLikely(n: nat, hops: nat, path: seq<nat>, k: nat, tail: Bytes)
    requires 1 <= hops <= n < TWO63 && PathAmong(n, hops, path) && |tail| < 8
    ensures |RestStreams(n, hops, path, k, tail)| == Streams(n - 1, hops - 1, MAX_DRAWS, k)
  {
    var draws := RestDraws(n, hops, path);
    forall words ensures words in RestStreams(n, hops, path, k, tail) <==> words in StreamsFor(n - 1, draws, MAX_DRAWS, k, tail) {
      RestGives(n, hops, path, Encode(words) + tail);
      DrawOnIsDrawMany(Encode(words) + tail, n - 1, hops - 1);
    }
    assert RestStreams(n, hops, path, k, tail) == StreamsFor(n - 1, draws, MAX_DRAWS, k, tail);
    StreamsCount(n - 1, draws, MAX_DRAWS, k, tail);
  }

  /** Lists of words that are all taken, the bound falling by one. */
  predicate AllUsable(words: seq<Uint64>, m: nat)
    requires |words| <= m < TWO64
    decreases |words|
  {
    words == [] || (Usable(m, words[0]) && AllUsable(words[1..], m - 1))
  }

  function Remainders(words: seq<Uint64>, m: nat): (draws: seq<nat>)
    requires |words| <= m
    ensures |draws| == |words| && InRange(draws, m)
    decreases |words|
  {
    if words == [] then []
    else
      var tail := Remainders(words[1..], m - 1);
      assert forall i :: 1 <= i < |words| ==> ([words[0] % m] + tail)[i] == tail[i - 1];
      [words[0] % m] + tail
  }

  /** Words that are all taken are drawn one by one, and nothing is left of them. */
  lemma {:induction false} UsableWordsDrawn(words: seq<Uint64>, m: nat)
    requires |words| <= m < TWO64 && AllUsable(words, m)
    ensures DrawMany(Encode(words), m, |words|) == (Ok(Remainders(words, m)), [])
    decreases |words|
  {
    if words != [] {
      var w, rest := words[0], words[1..];
      assert words == [w] + rest;
      assert Encode(words) + [] == Encode(words) && Encode(rest) + [] == Encode(rest);
      WordRead(w, rest, []);
      UsableWordsDrawn(rest, m - 1);
    }
  }

  lemma UsableWordsDealt(entry: nat, n: nat, hops: nat, words: seq<Uint64>)
    requires entry < n < TWO63 && 1 <= hops <= n && |words| == hops - 1 && AllUsable(words, n - 1)
    ensures PathFrom(entry, n, hops, Encode(words)) == (Ok([entry] + Deal(Others(n, entry), Remainders(words, n - 1))), [])
  {
    UsableWordsDrawn(words, n - 1);
  }

  /** How many lists of usable words give each row of draws. */
  function Lists(m: nat, k: nat): nat
    requires k <= m < TWO64
    decreases k
  {
    if k == 0 then 1 else Cycles(m) * Lists(m - 1, k - 1)
  }

  lemma {:induction false} TooFewWords(m: nat, count: nat, tries: nat, k: nat)
    requires k < count <= m < TWO64
    ensures Streams(m, count, tries, k) == 0
    decreases k
  {
    if tries > 0 && k > 0 {
      TooFewWords(m, count, tries - 1, k - 1);
      TooFewWords(m - 1, count - 1, MAX_DRAWS, k - 1);
      CopiesIsProduct(Lost(m), 0);
      CopiesIsProduct(Kept(m), 0);
    }
  }

  /** In a stream of as many words as draws none can be thrown away. */
  lemma {:induction false} LeastWords(m: nat, count: nat, tries: nat)
    requires count <= m < TWO64 && tries > 0
    ensures Streams(m, count, tries, count) == Lists(m, count)
    decreases count
  {
    if count > 0 {
      TooFewWords(m, count, tries - 1, count - 1);
      LeastWords(m - 1, count - 1, MAX_DRAWS);
      CopiesIsProduct(Lost(m), 0);
      CopiesIsProduct(Kept(m), Lists(m - 1, count - 1));
      LostAndKept(m);
    }
  }

  /** Every path is drawn from Cycles(n) * ... * Cycles(n - hops + 1) streams of as few words as it has nodes. */
  lemma PathsFromLeastWords(n: nat, hops: nat, path: seq<nat>)
    requires 1 <= hops <= n < TWO63 && PathAmong(n, hops, path)
    ensures |StreamsGiving(n, hops, path, hops, [])| == Cycles(n) * Lists(n - 1, hops - 1)
  {
    PathsEquallyLikely(n, hops, path, hops, []);
    LeastWords(n, hops, MAX_DRAWS);
  }
}
