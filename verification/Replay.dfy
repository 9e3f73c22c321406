/** Counters taken strictly in turn, and setup tags taken once (wire/replay.go). */
module Replay {
  import opened Results
  import opened ByteStrings
  import opened Counters

  /** The three fields of a Sequence. */
  datatype Turn = Turn(next: Uint64, taken: nat, seeded: bool)

  const FRESH := Turn(0, 0, false)

  /** Whether this counter is the one due. */
  predicate Due(s: Turn, counter: Uint64) {
    counter < COUNTER_LIMIT && s.taken < CELL_LIMIT && (s.seeded ==> counter == s.next)
  }

  function Take(s: Turn, counter: Counter): Turn {
    Turn(Shift(counter, 1), s.taken + 1, true)
  }

  function Offer(s: Turn, counter: Uint64): Turn {
    if Due(s, counter) then Take(s, counter) else s
  }

  class Sequence {
    var next: Uint64
    var taken: nat
    var seeded: bool

    function State(): Turn
      reads this
    {
      Turn(next, taken, seeded)
    }

    constructor ()
      ensures State() == FRESH
    {
      next, taken, seeded := 0, 0, false;
    }

    /** From here on the sequence is seeded: nothing but this value starts it. */
    method Expect(first: Uint64)
      modifies this
      ensures State() == Turn(first, old(taken), true)
    {
      seeded := true;
      next := first;
    }

    method Next(counter: Uint64) returns (ok: bool)
      modifies this
      ensures ok == Due(old(State()), counter)
      ensures State() == Offer(old(State()), counter)
    {
      if counter >= COUNTER_LIMIT || taken >= CELL_LIMIT {
        return false;
      }
      if seeded && counter != next {
        return false;
      }
      seeded := true;
      next := Shift(counter, 1);
      taken := taken + 1;
      return true;
    }
  }

  /** States a Sequence can be in: nothing is taken before it is seeded. */
  predicate Reachable(s: Turn) {
    && s.taken <= CELL_LIMIT
    && s.next < COUNTER_LIMIT
    && (!s.seeded ==> s.taken == 0)
  }

  /** v was taken: it lies between one and taken steps behind the next value. */
  ghost predicate WasTaken(s: Turn, v: Counter)
    requires Reachable(s)
  {
    exists t: Counter :: 1 <= t <= s.taken && v == Unshift(s.next, t)
  }

  /** However many are offered, what a Sequence takes it has never taken before. */
  lemma TakesOnce(s: Turn, counter: Uint64)
    requires Reachable(s) && Due(s, counter)
    ensures !WasTaken(s, counter)
    ensures Reachable(Take(s, counter))
    ensures forall v: Counter :: WasTaken(Take(s, counter), v) <==> v == counter || WasTaken(s, v)
  {
    var s' := Take(s, counter);
    UnshiftShift(counter, 1);
    assert Unshift(s'.next, 1) == counter;
    assert WasTaken(s', counter);
    forall v: Counter | WasTaken(s, v) ensures WasTaken(s', v) {
      var t: Counter :| 1 <= t <= s.taken && v == Unshift(s.next, t);
      UnshiftAssociates(s'.next, 1, t);
      assert v == Unshift(s'.next, Shift(1, t)) && Shift(1, t) == t + 1;
    }
    forall v: Counter | WasTaken(s', v) ensures v == counter || WasTaken(s, v) {
      var t: Counter :| 1 <= t <= s'.taken && v == Unshift(s'.next, t);
      if t > 1 {
        UnshiftAssociates(s'.next, 1, t - 1);
        assert Shift(1, t - 1) == t;
        assert s.seeded && v == Unshift(s.next, t - 1);
      }
    }
  }

  /** The counters taken out of a stream of offers. */
  function Accepted(s: Turn, offers: seq<Uint64>): (r: (Turn, seq<Counter>))
    decreases |offers|
  {
    if offers == [] then (s, [])
    else
      var (t, taken) := Accepted(s, offers[..|offers| - 1]);
      var c := offers[|offers| - 1];
      if Due(t, c) then (Take(t, c), taken + [c]) else (t, taken)
  }

  /**
   Whatever arrives, in whatever order and however often, a Sequence takes a run
   of consecutive values, at most CELL_LIMIT of them and so none twice.
   */
  lemma {:induction false} AcceptedConsecutive(s: Turn, offers: seq<Uint64>)
    requires s.taken == 0 && s.next < COUNTER_LIMIT
    ensures var (t, taken) := Accepted(s, offers);
            && t.taken == |taken| <= CELL_LIMIT
            && (s.seeded || taken != [] ==> t.seeded)
            && (t.seeded ==> t.next == Shift(if taken == [] then s.next else taken[0], |taken|))
            && (s.seeded && taken != [] ==> taken[0] == s.next)
            && (forall k :: 0 <= k < |taken| ==> taken[k] == Shift(taken[0], k))
            && (taken == [] ==> t == s)
    decreases |offers|
  {
    if offers != [] {
      AcceptedConsecutive(s, offers[..|offers| - 1]);
      var (t, taken) := Accepted(s, offers[..|offers| - 1]);
      var c := offers[|offers| - 1];
      if Due(t, c) {
        if taken != [] {
          ShiftAssociates(taken[0], |taken|, 1);
        }
      }
    }
  }

  lemma AcceptedDistinct(s: Turn, offers: seq<Uint64>, i: nat, j: nat)
    requires s.taken == 0 && s.next < COUNTER_LIMIT
    requires i < j < |Accepted(s, offers).1|
    ensures Accepted(s, offers).1[i] != Accepted(s, offers).1[j]
  {
    AcceptedConsecutive(s, offers);
    var taken := Accepted(s, offers).1;
    ShiftAssociates(taken[0], i, 0);
    if taken[i] == taken[j] {
      ShiftAssociates(i, taken[0], 0);
      ShiftAssociates(j, taken[0], 0);
      ShiftInjective(i, j, taken[0]);
    }
  }

  /** The next number, back below 2^62. */
  function Following(n: Counter): Counter {
    if n == 0x3fff_ffff_ffff_ffff then 0 else n + 1
  }

  /** One more offer is taken exactly when it is a counter, numbers last and it is the one due, or the first of all. */
  lemma OneMoreOffer(s: Turn, offers: seq<Uint64>, c: Uint64)
    ensures var (t, taken) := Accepted(s, offers);
            var (t', taken') := Accepted(s, offers + [c]);
            && t' == Offer(t, c)
            && if c < 0x4000_0000_0000_0000 && t.taken < 0x1000_0000_0000_0000 && (t.seeded ==> c == t.next) then
                 taken' == taken + [c] && t' == Turn(Following(c), t.taken + 1, true)
               else taken' == taken && t' == t
  {
    assert (offers + [c])[..|offers|] == offers;
  }

  function Nth(first: Counter, n: nat): Counter {
    if n == 0 then first else Following(Nth(first, n - 1))
  }

  function Consecutive(first: Counter, n: nat): (r: seq<Uint64>) {
    if n == 0 then [] else Consecutive(first, n - 1) + [Nth(first, n - 1)]
  }

  /** No honest counter is lost: a stream in order is taken whole, from whatever it starts with, up to the limit. */
  lemma {:induction false} InOrderTaken(first: Counter, n: nat)
    requires n <= CELL_LIMIT
    ensures Accepted(FRESH, Consecutive(first, n)) == (if n == 0 then FRESH else Turn(Nth(first, n), n, true), Consecutive(first, n))
  {
    if n > 0 {
      InOrderTaken(first, n - 1);
      OneMoreOffer(FRESH, Consecutive(first, n - 1), Nth(first, n - 1));
    }
  }

  // ------------------------------------------------------------- setup tags

  type SetupTag = b: Bytes | |b| == 16 witness seq(16, _ => 0)

  const DEFAULT_SETUP_CACHE: nat := 0x1_0000

  datatype TagError = Replayed | CacheFull

  /** Whether a cache of this size and content takes the tag, and why not. */
  function TagVerdict(max: nat, seen: set<SetupTag>, tag: SetupTag): Option<TagError> {
    if tag in seen then Some(Replayed) else if |seen| >= max then Some(CacheFull) else None
  }

  /** A size of zero, or less, stands for 65536. */
  function CacheSize(max: int): (m: nat)
    ensures max > 0 ==> m == max
    ensures max <= 0 ==> m == 0x1_0000
  {
    if max <= 0 then DEFAULT_SETUP_CACHE else max
  }

  class SetupCache {
    const max: nat
    var seen: set<SetupTag>

    constructor (max: int)
      ensures this.max == CacheSize(max) && seen == {}
    {
      this.max := CacheSize(max);
      seen := {};
    }

    method Add(tag: SetupTag) returns (refused: Option<TagError>)
      modifies this
      ensures refused == TagVerdict(max, old(seen), tag)
      ensures seen == if refused.None? then old(seen) + {tag} else old(seen)
    {
      if tag in seen {
        return Some(Replayed);
      }
      if |seen| >= max {
        return Some(CacheFull);
      }
      seen := seen + {tag};
      return None;
    }
  }
}
