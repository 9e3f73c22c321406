/** Labels and transcripts that keys are derived under (crypto/kdf.go). */
module Kdf {
  import opened Results
  import opened ByteStrings

  type Suite = Byte

  const GOST: Suite := 1
  const C25519: Suite := 2

  predicate KnownSuite(s: Suite) {
    s == GOST || s == C25519
  }

  /** "gost", "c25519", "unknown" */
  function SuiteName(s: Suite): Bytes {
    if s == GOST then [0x67, 0x6f, 0x73, 0x74]
    else if s == C25519 then [0x63, 0x32, 0x35, 0x35, 0x31, 0x39]
    else [0x75, 0x6e, 0x6b, 0x6e, 0x6f, 0x77, 0x6e]
  }

  const MAX_NAME_SIZE: nat := 32
  const MAX_PARTS: nat := 255
  const MAX_PART_SIZE: nat := 65535

  const SLASH: Byte := 0x2f
  /** "jimichi/v1/" */
  const LABEL_PREFIX: Bytes := [0x6a, 0x69, 0x6d, 0x69, 0x63, 0x68, 0x69, 0x2f, 0x76, 0x31, 0x2f]
  /** "transcript/" */
  const TRANSCRIPT_NS: Bytes := [0x74, 0x72, 0x61, 0x6e, 0x73, 0x63, 0x72, 0x69, 0x70, 0x74, 0x2f]
  /** "agree", "mix" */
  const AGREE: Bytes := [0x61, 0x67, 0x72, 0x65, 0x65]
  const MIX: Bytes := [0x6d, 0x69, 0x78]

  // ------------------------------------------------------------------ names

  predicate Alnum(c: Byte) {
    0x61 <= c <= 0x7a || 0x30 <= c <= 0x39
  }

  predicate Word(w: Bytes) {
    w != [] && forall i :: 0 <= i < |w| ==> Alnum(w[i])
  }

  function Join(words: seq<Bytes>): Bytes {
    if words == [] then [] else if |words| == 1 then words[0] else words[0] + [SLASH] + Join(words[1..])
  }

  /** The grammar [a-z0-9]+(/[a-z0-9]+)*: words joined by single slashes. */
  ghost predicate InGrammar(name: Bytes) {
    exists words: seq<Bytes> :: words != [] && (forall i :: 0 <= i < |words| ==> Word(words[i])) && Join(words) == name
  }

  /** What the loop of validName checks, byte by byte. */
  predicate Clean(name: Bytes) {
    && name != []
    && (forall i :: 0 <= i < |name| ==> Alnum(name[i]) || name[i] == SLASH)
    && (forall i :: 0 <= i < |name| && name[i] == SLASH ==> i > 0 && name[i - 1] != SLASH)
    && name[|name| - 1] != SLASH
  }

  lemma {:induction false} JoinClean(words: seq<Bytes>)
    requires words != [] && forall i :: 0 <= i < |words| ==> Word(words[i])
    ensures Clean(Join(words))
  {
    if |words| > 1 {
      JoinClean(words[1..]);
      var head, rest, name := words[0], Join(words[1..]), Join(words);
      assert name == head + [SLASH] + rest;
      assert Word(head);
      forall i | 0 <= i < |name|
        ensures Alnum(name[i]) || name[i] == SLASH
        ensures name[i] == SLASH ==> i > 0 && name[i - 1] != SLASH
      {
        if i > |head| {
          assert name[i] == rest[i - |head| - 1];
        }
      }
    } else {
      assert Word(words[0]);
    }
  }

  /** Where the first slash stands, or the length. */
  function FirstSlash(name: Bytes): (k: nat)
    ensures k <= |name| && (forall i :: 0 <= i < k ==> name[i] != SLASH) && (k < |name| ==> name[k] == SLASH)
  {
    if name == [] || name[0] == SLASH then 0 else 1 + FirstSlash(name[1..])
  }

  lemma {:induction false} CleanSplits(name: Bytes) returns (words: seq<Bytes>)
    requires Clean(name)
    ensures words != [] && (forall i :: 0 <= i < |words| ==> Word(words[i])) && Join(words) == name
    decreases |name|
  {
    var k := FirstSlash(name);
    if k == |name| {
      words := [name];
    } else {
      var rest := name[k + 1..];
      forall i | 0 <= i < |rest| && rest[i] == SLASH ensures i > 0 && rest[i - 1] != SLASH {
        assert name[k + 1 + i] == SLASH;
      }
      var more := CleanSplits(rest);
      words := [name[..k]] + more;
      assert words[1..] == more;
      assert name == name[..k] + [SLASH] + rest;
    }
  }

  lemma CleanIsGrammar(name: Bytes)
    ensures Clean(name) <==> InGrammar(name)
  {
    if Clean(name) {
      var words := CleanSplits(name);
    }
    if InGrammar(name) {
      var words: seq<Bytes> :| words != [] && (forall i :: 0 <= i < |words| ==> Word(words[i])) && Join(words) == name;
      JoinClean(words);
    }
  }

  predicate ValidName(name: Bytes) {
    |name| <= MAX_NAME_SIZE && Clean(name)
  }

  /** The scan of validName accepts exactly the names of the grammar, up to their length limit. */
  method ScanName(name: Bytes) returns (ok: bool)
    ensures ok == ValidName(name)
    ensures ok <==> |name| <= MAX_NAME_SIZE && InGrammar(name)
  {
    CleanIsGrammar(name);
    if |name| == 0 || |name| > MAX_NAME_SIZE {
      return false;
    }
    var prev := SLASH;
    for i := 0 to |name|
      invariant prev == if i == 0 then SLASH else name[i - 1]
      invariant forall j :: 0 <= j < i ==> Alnum(name[j]) || name[j] == SLASH
      invariant forall j :: 0 <= j < i && name[j] == SLASH ==> j > 0 && name[j - 1] != SLASH
    {
      var c := name[i];
      if !Alnum(c) && !(c == SLASH && prev != SLASH) {
        return false;
      }
      prev := c;
    }
    return prev != SLASH;
  }

  lemma NameHasNoZero(name: Bytes)
    requires ValidName(name)
    ensures 0 !in name
  {}

  // ----------------------------------------------------------------- labels

  function Head(s: Suite, rest: Bytes): Bytes {
    LABEL_PREFIX + SuiteName(s) + [SLASH] + rest
  }

  /** None stands for ErrBadLabel. */
  function Label(s: Suite, purpose: Bytes): Option<Bytes> {
    if KnownSuite(s) && ValidName(purpose) then Some(Head(s, purpose)) else None
  }

  predicate Reserved(purpose: Bytes) {
    purpose == AGREE || purpose == MIX || TRANSCRIPT_NS <= purpose
  }

  function DeriveLabel(s: Suite, purpose: Bytes): Option<Bytes> {
    if Reserved(purpose) then None else Label(s, purpose)
  }

  /** When there is a label, and all of it: jimichi/v1/, the suite's name, a slash and the purpose. */
  lemma LabelsExactly(s: Suite, purpose: Bytes)
    ensures Label(s, purpose).Some? <==> s in {1, 2} && |purpose| <= 32 && InGrammar(purpose)
    ensures DeriveLabel(s, purpose).Some? <==>
              && s in {1, 2} && |purpose| <= 32 && InGrammar(purpose)
              && purpose != [0x61, 0x67, 0x72, 0x65, 0x65] && purpose != [0x6d, 0x69, 0x78] && !(TRANSCRIPT_NS <= purpose)
    ensures DeriveLabel(s, purpose).Some? ==> DeriveLabel(s, purpose) == Label(s, purpose)
    ensures Label(s, purpose).Some? ==>
              Label(s, purpose).value == [0x6a, 0x69, 0x6d, 0x69, 0x63, 0x68, 0x69, 0x2f, 0x76, 0x31, 0x2f]
                                         + (if s == 1 then [0x67, 0x6f, 0x73, 0x74] else [0x63, 0x32, 0x35, 0x35, 0x31, 0x39])
                                         + [0x2f] + purpose
  {
    CleanIsGrammar(purpose);
  }

  lemma HeadInjective(s: Suite, rest: Bytes, s': Suite, rest': Bytes)
    requires KnownSuite(s) && KnownSuite(s') && Head(s, rest) == Head(s', rest')
    ensures s == s' && rest == rest'
  {
    var h, h' := Head(s, rest), Head(s', rest');
    var n := |LABEL_PREFIX|;
    assert h[n] == SuiteName(s)[0] && h'[n] == SuiteName(s')[0];
    assert h[n + |SuiteName(s)| + 1..] == rest && h'[n + |SuiteName(s')| + 1..] == rest';
  }

  /** No key a caller derives shares its label with an agreement, a mix or a transcript. */
  lemma DerivedLabelsApart(s: Suite, purpose: Bytes, s': Suite, other: Bytes)
    requires DeriveLabel(s, purpose).Some? && KnownSuite(s')
    ensures DeriveLabel(s, purpose) != Label(s', AGREE) && DeriveLabel(s, purpose) != Label(s', MIX)
    ensures DeriveLabel(s, purpose).value != Head(s', TRANSCRIPT_NS + other)
    ensures DeriveLabel(s', other) == DeriveLabel(s, purpose) ==> s == s' && other == purpose
  {
    if DeriveLabel(s, purpose) == Label(s', AGREE) {
      HeadInjective(s, purpose, s', AGREE);
    }
    if DeriveLabel(s, purpose) == Label(s', MIX) {
      HeadInjective(s, purpose, s', MIX);
    }
    if DeriveLabel(s, purpose).value == Head(s', TRANSCRIPT_NS + other) {
      HeadInjective(s, purpose, s', TRANSCRIPT_NS + other);
    }
    if DeriveLabel(s', other) == DeriveLabel(s, purpose) {
      HeadInjective(s, purpose, s', other);
    }
  }

  // ------------------------------------------------------------- transcripts

  datatype TranscriptError = BadLabel | BadContext

  predicate ValidParts(parts: seq<Bytes>) {
    1 <= |parts| <= MAX_PARTS && forall i :: 0 <= i < |parts| ==> 1 <= |parts[i]| <= MAX_PART_SIZE
  }

  /** Each part behind its length, from part i on. */
  function Encoded(parts: seq<Bytes>, i: nat): Bytes
    requires i <= |parts|
    decreases |parts| - i
  {
    if i == |parts| then [] else BigEndian(|parts[i]|, 2) + parts[i] + Encoded(parts, i + 1)
  }

  /** What stands in front of the parts. */
  function Opening(s: Suite, exchange: Bytes, count: Byte): Bytes {
    Head(s, TRANSCRIPT_NS + exchange) + [0, count]
  }

  function Transcript(s: Suite, exchange: Bytes, parts: seq<Bytes>): (r: Result<Bytes, TranscriptError>)
    ensures r.Ok? <==> KnownSuite(s) && ValidName(exchange) && ValidParts(parts)
  {
    if !KnownSuite(s) then Err(BadContext)
    else if !ValidName(exchange) then Err(BadLabel)
    else if !ValidParts(parts) then Err(BadContext)
    else Ok(Opening(s, exchange, |parts|) + Encoded(parts, 0))
  }

  lemma Regroup(a: Bytes, b: Bytes, c: Bytes, d: Bytes)
    ensures a + (b + c + d) == a + b + c + d
  {}

  method AppendParts(head: Bytes, parts: seq<Bytes>) returns (t: Bytes)
    requires ValidParts(parts)
    ensures t == head + Encoded(parts, 0)
  {
    t := head;
    for i := 0 to |parts|
      invariant t + Encoded(parts, i) == head + Encoded(parts, 0)
    {
      var length := BigEndian(|parts[i]|, 2);
      Regroup(t, length, parts[i], Encoded(parts, i + 1));
      t := t + length + parts[i];
    }
    assert t + Encoded(parts, |parts|) == t;
  }

  method PartsSized(parts: seq<Bytes>) returns (ok: bool)
    ensures ok <==> forall i :: 0 <= i < |parts| ==> 1 <= |parts[i]| <= MAX_PART_SIZE
  {
    for i := 0 to |parts|
      invariant forall j :: 0 <= j < i ==> 1 <= |parts[j]| <= MAX_PART_SIZE
    {
      if |parts[i]| == 0 || |parts[i]| > MAX_PART_SIZE {
        return false;
      }
    }
    return true;
  }

  method TranscriptBytes(s: Suite, exchange: Bytes, parts: seq<Bytes>) returns (r: Result<Bytes, TranscriptError>)
    ensures r == Transcript(s, exchange, parts)
  {
    if !KnownSuite(s) {
      return Err(BadContext);
    }
    var named := ScanName(exchange);
    if !named {
      return Err(BadLabel);
    }
    if |parts| == 0 || |parts| > MAX_PARTS {
      return Err(BadContext);
    }
    var sized := PartsSized(parts);
    if !sized {
      return Err(BadContext);
    }
    var t := AppendParts(Opening(s, exchange, |parts|), parts);
    return Ok(t);
  }

  /** A separator that neither part in front contains stands in one place only. */
  lemma SplitAtZero(a: Bytes, n: Byte, x: Bytes, b: Bytes, m: Byte, y: Bytes)
    requires a + [0, n] + x == b + [0, m] + y && 0 !in a && 0 !in b
    ensures a == b && n == m && x == y
  {
    var whole := a + [0, n] + x;
    assert whole[|a|] == 0 && whole[|b|] == 0;
    assert forall i :: 0 <= i < |a| ==> whole[i] == a[i];
    assert forall i :: 0 <= i < |b| ==> whole[i] == b[i];
    assert a == whole[..|a|] && b == whole[..|b|];
    assert n == whole[|a| + 1] && m == whole[|b| + 1];
    assert x == whole[|a| + 2..] && y == whole[|b| + 2..];
  }

  lemma {:induction false} EncodedInjective(p: seq<Bytes>, q: seq<Bytes>, i: nat)
    requires |p| == |q| && i <= |p| && ValidParts(p) && ValidParts(q)
    requires Encoded(p, i) == Encoded(q, i)
    ensures p[i..] == q[i..]
    decreases |p| - i
  {
    if i < |p| {
      var e := Encoded(p, i);
      Ranges();
      assert e[..2] == BigEndian(|p[i]|, 2) && e[..2] == BigEndian(|q[i]|, 2);
      EncodeInjective(|p[i]|, |q[i]|, 2);
      assert e[2..2 + |p[i]|] == p[i] && e[2..2 + |q[i]|] == q[i];
      assert e[2 + |p[i]|..] == Encoded(p, i + 1) && e[2 + |q[i]|..] == Encoded(q, i + 1);
      EncodedInjective(p, q, i + 1);
      assert p[i..] == [p[i]] + p[i + 1..] && q[i..] == [q[i]] + q[i + 1..];
    }
  }

  /** One transcript, one exchange: suite, name and every part can be read back. */
  lemma TranscriptInjective(s: Suite, x: Bytes, p: seq<Bytes>, s': Suite, x': Bytes, p': seq<Bytes>)
    requires Transcript(s, x, p).Ok? && Transcript(s', x', p').Ok?
    requires Transcript(s, x, p) == Transcript(s', x', p')
    ensures s == s' && x == x' && p == p'
  {
    var h, h' := Head(s, TRANSCRIPT_NS + x), Head(s', TRANSCRIPT_NS + x');
    HeadHasNoZero(s, x);
    HeadHasNoZero(s', x');
    PartsReadBack(h, p, h', p');
    HeadInjective(s, TRANSCRIPT_NS + x, s', TRANSCRIPT_NS + x');
    DropFront(TRANSCRIPT_NS, x, x');
  }

  lemma DropFront(a: Bytes, x: Bytes, y: Bytes)
    requires a + x == a + y
    ensures x == y
  {
    assert (a + x)[|a|..] == x && (a + y)[|a|..] == y;
  }

  lemma HeadHasNoZero(s: Suite, name: Bytes)
    requires ValidName(name)
    ensures 0 !in Head(s, TRANSCRIPT_NS + name)
  {
    NameHasNoZero(name);
  }

  lemma PartsReadBack(h: Bytes, p: seq<Bytes>, h': Bytes, p': seq<Bytes>)
    requires 0 !in h && 0 !in h' && ValidParts(p) && ValidParts(p')
    requires h + [0, |p|] + Encoded(p, 0) == h' + [0, |p'|] + Encoded(p', 0)
    ensures h == h' && p == p'
  {
    SplitAtZero(h, |p|, Encoded(p, 0), h', |p'|, Encoded(p', 0));
    EncodedInjective(p, p', 0);
    assert p[0..] == p && p'[0..] == p';
  }
}
