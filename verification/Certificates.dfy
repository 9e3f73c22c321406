/** Certificates, descriptors and requests as bytes (pki/cert.go, pki/descriptor.go, pki/request.go). */
module Certificates {
  import opened Results
  import opened ByteStrings
  import opened Codec
  import Kdf

  const MAX_NAME: nat := 32
  const ADDR_SIZE: nat := 64
  const MAX_KEY: nat := 128
  const MAX_SIG: nat := 128

  type Bytes8 = b: Bytes | |b| == 8 witness [0, 0, 0, 0, 0, 0, 0, 0]
  type Bytes16 = b: Bytes | |b| == 16 witness [0, 0, 0, 0, 0, 0, 0, 0, 0, 0, 0, 0, 0, 0, 0, 0]
  type Bytes32 = b: Bytes | |b| == 32 witness seq(32, _ => 0)

  datatype Cert = Cert(suite: Byte, serial: Bytes16, caid: Bytes8, notBefore: Int64, notAfter: Int64,
                       name: Bytes, addr: Bytes, identity: Bytes, sig: Bytes)

  datatype Descriptor = Descriptor(suite: Byte, epoch: Uint32, published: Int64, expires: Int64, certHash: Bytes32,
                                   linkPub: Bytes, onionPub: Bytes, sig: Bytes)

  datatype Request = Request(suite: Byte, nonce: Bytes16, name: Bytes, addr: Bytes, identity: Bytes, sig: Bytes)

  predicate NameByte(c: Byte) {
    0x61 <= c <= 0x7a || 0x30 <= c <= 0x39 || c == 0x2d
  }

  predicate ValidName(s: Bytes) {
    1 <= |s| <= MAX_NAME && forall i :: 0 <= i < |s| ==> NameByte(s[i])
  }

  method CheckName(s: Bytes) returns (ok: bool)
    ensures ok <==> ValidName(s)
  {
    if |s| == 0 || |s| > MAX_NAME {
      return false;
    }
    for i := 0 to |s|
      invariant forall j :: 0 <= j < i ==> NameByte(s[j])
    {
      if !NameByte(s[i]) {
        return false;
      }
    }
    return true;
  }

  // What a caller may rely on in an object that was parsed. Addresses are judged
  // by a rule of their own, addrOk.

  predicate GoodCert(c: Cert, addrOk: Bytes -> bool) {
    && Kdf.KnownSuite(c.suite) && ValidName(c.name) && 1 <= |c.addr| <= ADDR_SIZE && addrOk(c.addr)
    && 1 <= |c.identity| <= MAX_KEY && |c.sig| <= MAX_SIG
  }

  predicate GoodDescriptor(d: Descriptor) {
    && Kdf.KnownSuite(d.suite) && 1 <= |d.linkPub| <= MAX_KEY && 1 <= |d.onionPub| <= MAX_KEY && |d.sig| <= MAX_SIG
  }

  predicate GoodRequest(q: Request, addrOk: Bytes -> bool) {
    && Kdf.KnownSuite(q.suite) && ValidName(q.name) && 1 <= |q.addr| <= ADDR_SIZE && addrOk(q.addr)
    && 1 <= |q.identity| <= MAX_KEY && |q.sig| <= MAX_SIG
  }

  // ------------------------------------------------------------------- marshalling

  function CertParts(c: Cert): seq<Bytes> {
    [Head(c.suite), c.serial, c.caid, Time(c.notBefore), Time(c.notAfter), Field(c.name), Field(c.addr), Field(c.identity)]
  }

  function DescriptorParts(d: Descriptor): seq<Bytes> {
    [Head(d.suite), Word(d.epoch), Time(d.published), Time(d.expires), d.certHash, Field(d.linkPub), Field(d.onionPub)]
  }

  function RequestParts(q: Request): seq<Bytes> {
    [Head(q.suite), q.nonce, Field(q.name), Field(q.addr), Field(q.identity)]
  }

  function CertBody(c: Cert): Bytes { Concat(CertParts(c)) }
  function DescriptorBody(d: Descriptor): Bytes { Concat(DescriptorParts(d)) }
  function RequestBody(q: Request): Bytes { Concat(RequestParts(q)) }

  function MarshalCert(c: Cert): Bytes { CertBody(c) + Field(c.sig) }
  function MarshalDescriptor(d: Descriptor): Bytes { DescriptorBody(d) + Field(d.sig) }
  function MarshalRequest(q: Request): Bytes { RequestBody(q) + Field(q.sig) }

  method WriteCert(c: Cert) returns (b: Bytes)
    ensures b == MarshalCert(c)
  {
    var w := new Writer();
    w.PutHead(c.suite);
    w.Raw(c.serial);
    w.Raw(c.caid);
    w.PutTime(c.notBefore);
    w.PutTime(c.notAfter);
    w.PutField(c.name);
    w.PutField(c.addr);
    w.PutField(c.identity);
    assert w.parts == CertParts(c);
    b := w.b + ([|c.sig| % 256] + c.sig);
  }

  method WriteDescriptor(d: Descriptor) returns (b: Bytes)
    ensures b == MarshalDescriptor(d)
  {
    var w := new Writer();
    w.PutHead(d.suite);
    w.PutWord(d.epoch);
    w.PutTime(d.published);
    w.PutTime(d.expires);
    w.Raw(d.certHash);
    w.PutField(d.linkPub);
    w.PutField(d.onionPub);
    assert w.parts == DescriptorParts(d);
    b := w.b + ([|d.sig| % 256] + d.sig);
  }

  method WriteRequest(q: Request) returns (b: Bytes)
    ensures b == MarshalRequest(q)
  {
    var w := new Writer();
    w.PutHead(q.suite);
    w.Raw(q.nonce);
    w.PutField(q.name);
    w.PutField(q.addr);
    w.PutField(q.identity);
    assert w.parts == RequestParts(q);
    b := w.b + ([|q.sig| % 256] + q.sig);
  }

  // ---------------------------------------------------------------------- decoding

  function DecodeCert(b: Bytes, addrOk: Bytes -> bool): Result<Cert, Error> {
    var (s, r0) := TakeHead(In(b, false));
    if s.Err? then Err(s.error) else CertAfter(s.value, r0, addrOk)
  }

  function CertAfter(s: Byte, r0: In, addrOk: Bytes -> bool): Result<Cert, Error> {
    var (serial, r1) := TakeFixed(r0, 16);
    var (caid, r2) := TakeFixed(r1, 8);
    var (notBefore, r3) := TakeTime(r2);
    var (notAfter, r4) := TakeTime(r3);
    var (name, r5) := TakeField(r4, 1, MAX_NAME);
    var (addr, r6) := TakeField(r5, 1, ADDR_SIZE);
    var (identity, r7) := TakeField(r6, 1, MAX_KEY);
    var (sig, r8) := TakeField(r7, 0, MAX_SIG);
    if r8.bad || r8.b != [] then Err(BadFormat)
    else if !ValidName(name) || !addrOk(addr) then Err(BadFormat)
    else Ok(Cert(s, serial, caid, notBefore, notAfter, name, addr, identity, sig))
  }

  function DecodeDescriptor(b: Bytes): Result<Descriptor, Error> {
    var (s, r0) := TakeHead(In(b, false));
    if s.Err? then Err(s.error) else DescriptorAfter(s.value, r0)
  }

  function DescriptorAfter(s: Byte, r0: In): Result<Descriptor, Error> {
    var (epoch, r1) := TakeWord(r0);
    var (published, r2) := TakeTime(r1);
    var (expires, r3) := TakeTime(r2);
    var (certHash, r4) := TakeFixed(r3, 32);
    var (linkPub, r5) := TakeField(r4, 1, MAX_KEY);
    var (onionPub, r6) := TakeField(r5, 1, MAX_KEY);
    var (sig, r7) := TakeField(r6, 0, MAX_SIG);
    if r7.bad || r7.b != [] then Err(BadFormat)
    else Ok(Descriptor(s, epoch, published, expires, certHash, linkPub, onionPub, sig))
  }

  function DecodeRequest(b: Bytes, addrOk: Bytes -> bool): Result<Request, Error> {
    var (s, r0) := TakeHead(In(b, false));
    if s.Err? then Err(s.error) else RequestAfter(s.value, r0, addrOk)
  }

  function RequestAfter(s: Byte, r0: In, addrOk: Bytes -> bool): Result<Request, Error> {
    var (nonce, r1) := TakeFixed(r0, 16);
    var (name, r2) := TakeField(r1, 1, MAX_NAME);
    var (addr, r3) := TakeField(r2, 1, ADDR_SIZE);
    var (identity, r4) := TakeField(r3, 1, MAX_KEY);
    var (sig, r5) := TakeField(r4, 0, MAX_SIG);
    if r5.bad || r5.b != [] then Err(BadFormat)
    else if !ValidName(name) || !addrOk(addr) then Err(BadFormat)
    else Ok(Request(s, nonce, name, addr, identity, sig))
  }

  /** Parsing ends with a comparison against the canonical form. */
  function ParseCert(b: Bytes, addrOk: Bytes -> bool): Result<Cert, Error> {
    var c := DecodeCert(b, addrOk);
    if c.Ok? && MarshalCert(c.value) != b then Err(BadFormat) else c
  }

  function ParseDescriptor(b: Bytes): Result<Descriptor, Error> {
    var d := DecodeDescriptor(b);
    if d.Ok? && MarshalDescriptor(d.value) != b then Err(BadFormat) else d
  }

  function ParseRequest(b: Bytes, addrOk: Bytes -> bool): Result<Request, Error> {
    var q := DecodeRequest(b, addrOk);
    if q.Ok? && MarshalRequest(q.value) != b then Err(BadFormat) else q
  }

  method ReadCert(b: Bytes, addrOk: Bytes -> bool) returns (r: Result<Cert, Error>)
    ensures r == DecodeCert(b, addrOk)
  {
    var rd := new Reader(b);
    var s := rd.NextHead();
    if s.Err? {
      return Err(s.error);
    }
    var serial := rd.NextFixed(16);
    var caid := rd.NextFixed(8);
    var notBefore := rd.NextTime();
    var notAfter := rd.NextTime();
    var name := rd.NextField(1, MAX_NAME);
    var addr := rd.NextField(1, ADDR_SIZE);
    var identity := rd.NextField(1, MAX_KEY);
    var sig := rd.NextField(0, MAX_SIG);
    if rd.bad || |rd.b| != 0 {
      return Err(BadFormat);
    }
    var nameOk := CheckName(name);
    if !nameOk || !addrOk(addr) {
      return Err(BadFormat);
    }
    r := Ok(Cert(s.value, serial, caid, notBefore, notAfter, name, addr, identity, sig));
  }

  method ReadDescriptor(b: Bytes) returns (r: Result<Descriptor, Error>)
    ensures r == DecodeDescriptor(b)
  {
    var rd := new Reader(b);
    var s := rd.NextHead();
    if s.Err? {
      return Err(s.error);
    }
    var epoch := rd.NextWord();
    var published := rd.NextTime();
    var expires := rd.NextTime();
    var certHash := rd.NextFixed(32);
    var linkPub := rd.NextField(1, MAX_KEY);
    var onionPub := rd.NextField(1, MAX_KEY);
    var sig := rd.NextField(0, MAX_SIG);
    if rd.bad || |rd.b| != 0 {
      return Err(BadFormat);
    }
    r := Ok(Descriptor(s.value, epoch, published, expires, certHash, linkPub, onionPub, sig));
  }

  method ReadRequest(b: Bytes, addrOk: Bytes -> bool) returns (r: Result<Request, Error>)
    ensures r == DecodeRequest(b, addrOk)
  {
    var rd := new Reader(b);
    var s := rd.NextHead();
    if s.Err? {
      return Err(s.error);
    }
    var nonce := rd.NextFixed(16);
    var name := rd.NextField(1, MAX_NAME);
    var addr := rd.NextField(1, ADDR_SIZE);
    var identity := rd.NextField(1, MAX_KEY);
    var sig := rd.NextField(0, MAX_SIG);
    if rd.bad || |rd.b| != 0 {
      return Err(BadFormat);
    }
    var nameOk := CheckName(name);
    if !nameOk || !addrOk(addr) {
      return Err(BadFormat);
    }
    r := Ok(Request(s.value, nonce, name, addr, identity, sig));
  }

  lemma NothingMore(b: Bytes, x: Bytes, rest: Bytes)
    requires b == x + rest && rest == []
    ensures b == x
  {}

  // ------------------------------------------------- certificates as fields in a row

  function CertItems(): seq<Item> {
    [Array(16), Array(8), Array(8), Array(8), Counted(1, MAX_NAME), Counted(1, ADDR_SIZE), Counted(1, MAX_KEY), Counted(0, MAX_SIG)]
  }

  function CertValues(c: Cert): seq<Bytes> {
    [c.serial, c.caid, Time(c.notBefore), Time(c.notAfter), c.name, c.addr, c.identity, c.sig]
  }

  lemma CertPuts(c: Cert)
    ensures MarshalCert(c) == Head(c.suite) + PutAll(CertItems(), CertValues(c))
  {
    var fields := PutParts(CertItems(), CertValues(c));
    assert CertParts(c) + [Field(c.sig)] == [Head(c.suite)] + fields;
    ConcatSnoc(CertParts(c), Field(c.sig));
    ConcatCons(Head(c.suite), fields);
    PutIsConcat(CertItems(), CertValues(c));
  }

  /** The end of decoding, given the fields and what is left. */
  function CertFrom(s: Byte, got: (seq<Bytes>, In), addrOk: Bytes -> bool): Result<Cert, Error>
    requires |got.0| == 8 && |got.0[0]| == 16 && |got.0[1]| == 8 && |got.0[2]| == 8 && |got.0[3]| == 8
  {
    var v := got.0;
    if got.1.bad || got.1.b != [] || !ValidName(v[4]) || !addrOk(v[5]) then Err(BadFormat)
    else Ok(Cert(s, v[0], v[1], FromTime(v[2]), FromTime(v[3]), v[4], v[5], v[6], v[7]))
  }

  lemma CertGets(s: Byte, r0: In, addrOk: Bytes -> bool)
    ensures CertAfter(s, r0, addrOk) == CertFrom(s, GotAll(r0, CertItems()), addrOk)
  {
    var i7 := [Counted(0, MAX_SIG)] + [];
    var i6 := [Counted(1, MAX_KEY)] + i7;
    var i5 := [Counted(1, ADDR_SIZE)] + i6;
    var i4 := [Counted(1, MAX_NAME)] + i5;
    var i3 := [Array(8)] + i4;
    var i2 := [Array(8)] + i3;
    var i1 := [Array(8)] + i2;
    assert CertItems() == [Array(16)] + i1;
    var r1 := TakeFixed(r0, 16).1;
    var r2 := TakeFixed(r1, 8).1;
    var r3 := TakeFixed(r2, 8).1;
    var r4 := TakeFixed(r3, 8).1;
    var r5 := TakeField(r4, 1, MAX_NAME).1;
    var r6 := TakeField(r5, 1, ADDR_SIZE).1;
    var r7 := TakeField(r6, 1, MAX_KEY).1;
    GotFirst(r0, Array(16), i1);
    GotFirst(r1, Array(8), i2);
    GotFirst(r2, Array(8), i3);
    GotFirst(r3, Array(8), i4);
    GotFirst(r4, Counted(1, MAX_NAME), i5);
    GotFirst(r5, Counted(1, ADDR_SIZE), i6);
    GotFirst(r6, Counted(1, MAX_KEY), i7);
    GotFirst(r7, Counted(0, MAX_SIG), []);
    TimeIsArray(r2);
    TimeIsArray(r3);
  }

  lemma CertAsGot(c: Cert, vs: seq<Bytes>, addrOk: Bytes -> bool)
    requires FitAll(CertItems(), vs) && Kdf.KnownSuite(c.suite)
    requires CertFrom(c.suite, (vs, In([], false)), addrOk) == Ok(c)
    ensures CertValues(c) == vs && GoodCert(c, addrOk)
  {
    TimeRoundTrips(0, vs[2]);
    TimeRoundTrips(0, vs[3]);
    assert Fit(CertItems()[5], vs[5]) && Fit(CertItems()[6], vs[6]) && Fit(CertItems()[7], vs[7]);
  }

  lemma CertWritten(b: Bytes, vs: seq<Bytes>, end: In, c: Cert, addrOk: Bytes -> bool)
    requires |vs| == 8 && |vs[0]| == 16 && |vs[1]| == 8 && |vs[2]| == 8 && |vs[3]| == 8
    requires Kdf.KnownSuite(c.suite) && CertFrom(c.suite, (vs, end), addrOk) == Ok(c)
    requires FitAll(CertItems(), vs) && b == PutAll(CertItems(), vs) + end.b
    ensures GoodCert(c, addrOk) && b == PutAll(CertItems(), CertValues(c))
  {
    CertAsGot(c, vs, addrOk);
    NothingMore(b, PutAll(CertItems(), vs), end.b);
  }

  lemma CertRowWritten(b: Bytes, s: Byte, r0: In, c: Cert, addrOk: Bytes -> bool)
    requires Kdf.KnownSuite(s) && b == Head(s) + r0.b && CertFrom(s, GotAll(r0, CertItems()), addrOk) == Ok(c)
    ensures GoodCert(c, addrOk) && MarshalCert(c) == b
  {
    var (vs, end) := GotAll(r0, CertItems());
    AllWritten(r0, CertItems());
    CertWritten(r0.b, vs, end, c, addrOk);
    CertPuts(c);
  }

  lemma DecodedCertWritten(b: Bytes, addrOk: Bytes -> bool)
    requires DecodeCert(b, addrOk).Ok?
    ensures GoodCert(DecodeCert(b, addrOk).value, addrOk) && MarshalCert(DecodeCert(b, addrOk).value) == b
  {
    var (s, r0) := TakeHead(In(b, false));
    HeadWritten(In(b, false));
    CertGets(s.value, r0, addrOk);
    CertRowWritten(b, s.value, r0, DecodeCert(b, addrOk).value, addrOk);
  }

  lemma CertFits(c: Cert, addrOk: Bytes -> bool)
    requires GoodCert(c, addrOk)
    ensures FitAll(CertItems(), CertValues(c)) && CertFrom(c.suite, (CertValues(c), In([], false)), addrOk) == Ok(c)
  {
    TimeRoundTrips(c.notBefore, Time(0));
    TimeRoundTrips(c.notAfter, Time(0));
  }

  lemma WrittenCertDecoded(c: Cert, addrOk: Bytes -> bool)
    requires GoodCert(c, addrOk)
    ensures DecodeCert(MarshalCert(c), addrOk) == Ok(c)
  {
    var fields := PutAll(CertItems(), CertValues(c));
    CertPuts(c);
    HeadRead(c.suite, fields);
    CertGets(c.suite, In(fields, false), addrOk);
    CertFits(c, addrOk);
    AllRead(CertItems(), CertValues(c), []);
    assert fields + [] == fields;
  }

  /** Parsing is decoding: the comparison with the canonical form that closes it never refuses. */
  lemma ParseCertIsDecode(b: Bytes, addrOk: Bytes -> bool)
    ensures ParseCert(b, addrOk) == DecodeCert(b, addrOk)
  {
    if DecodeCert(b, addrOk).Ok? {
      DecodedCertWritten(b, addrOk);
    }
  }

  /** Exactly the well-formed objects survive the round trip, and exactly their encodings are accepted. */
  lemma CertRoundTrips(c: Cert, b: Bytes, addrOk: Bytes -> bool)
    ensures ParseCert(MarshalCert(c), addrOk) == Ok(c) <==> GoodCert(c, addrOk)
    ensures ParseCert(b, addrOk) == Ok(c) <==> GoodCert(c, addrOk) && MarshalCert(c) == b
  {
    ParseCertIsDecode(b, addrOk);
    ParseCertIsDecode(MarshalCert(c), addrOk);
    if DecodeCert(b, addrOk).Ok? {
      DecodedCertWritten(b, addrOk);
    }
    if DecodeCert(MarshalCert(c), addrOk).Ok? {
      DecodedCertWritten(MarshalCert(c), addrOk);
    }
    if GoodCert(c, addrOk) {
      WrittenCertDecoded(c, addrOk);
    }
  }

  // -------------------------------------------------- descriptors as fields in a row

  function DescriptorItems(): seq<Item> {
    [Array(4), Array(8), Array(8), Array(32), Counted(1, MAX_KEY), Counted(1, MAX_KEY), Counted(0, MAX_SIG)]
  }

  function DescriptorValues(d: Descriptor): seq<Bytes> {
    [Word(d.epoch), Time(d.published), Time(d.expires), d.certHash, d.linkPub, d.onionPub, d.sig]
  }

  lemma DescriptorPuts(d: Descriptor)
    ensures MarshalDescriptor(d) == Head(d.suite) + PutAll(DescriptorItems(), DescriptorValues(d))
  {
    var fields := PutParts(DescriptorItems(), DescriptorValues(d));
    assert DescriptorParts(d) + [Field(d.sig)] == [Head(d.suite)] + fields;
    ConcatSnoc(DescriptorParts(d), Field(d.sig));
    ConcatCons(Head(d.suite), fields);
    PutIsConcat(DescriptorItems(), DescriptorValues(d));
  }

  function DescriptorFrom(s: Byte, got: (seq<Bytes>, In)): Result<Descriptor, Error>
    requires |got.0| == 7 && |got.0[0]| == 4 && |got.0[1]| == 8 && |got.0[2]| == 8 && |got.0[3]| == 32
  {
    var v := got.0;
    if got.1.bad || got.1.b != [] then Err(BadFormat)
    else Ok(Descriptor(s, FromWord(v[0]), FromTime(v[1]), FromTime(v[2]), v[3], v[4], v[5], v[6]))
  }

  lemma DescriptorGets(s: Byte, r0: In)
    ensures DescriptorAfter(s, r0) == DescriptorFrom(s, GotAll(r0, DescriptorItems()))
  {
    var i6 := [Counted(0, MAX_SIG)] + [];
    var i5 := [Counted(1, MAX_KEY)] + i6;
    var i4 := [Counted(1, MAX_KEY)] + i5;
    var i3 := [Array(32)] + i4;
    var i2 := [Array(8)] + i3;
    var i1 := [Array(8)] + i2;
    assert DescriptorItems() == [Array(4)] + i1;
    var r1 := TakeFixed(r0, 4).1;
    var r2 := TakeFixed(r1, 8).1;
    var r3 := TakeFixed(r2, 8).1;
    var r4 := TakeFixed(r3, 32).1;
    var r5 := TakeField(r4, 1, MAX_KEY).1;
    var r6 := TakeField(r5, 1, MAX_KEY).1;
    GotFirst(r0, Array(4), i1);
    GotFirst(r1, Array(8), i2);
    GotFirst(r2, Array(8), i3);
    GotFirst(r3, Array(32), i4);
    GotFirst(r4, Counted(1, MAX_KEY), i5);
    GotFirst(r5, Counted(1, MAX_KEY), i6);
    GotFirst(r6, Counted(0, MAX_SIG), []);
    WordIsArray(r0);
    TimeIsArray(r1);
    TimeIsArray(r2);
  }

  lemma DescriptorAsGot(d: Descriptor, vs: seq<Bytes>)
    requires FitAll(DescriptorItems(), vs) && Kdf.KnownSuite(d.suite)
    requires DescriptorFrom(d.suite, (vs, In([], false))) == Ok(d)
    ensures DescriptorValues(d) == vs && GoodDescriptor(d)
  {
    WordRoundTrips(0, vs[0]);
    TimeRoundTrips(0, vs[1]);
    TimeRoundTrips(0, vs[2]);
    assert Fit(DescriptorItems()[4], vs[4]) && Fit(DescriptorItems()[5], vs[5]) && Fit(DescriptorItems()[6], vs[6]);
  }

  lemma DescriptorWritten(b: Bytes, vs: seq<Bytes>, end: In, d: Descriptor)
    requires |vs| == 7 && |vs[0]| == 4 && |vs[1]| == 8 && |vs[2]| == 8 && |vs[3]| == 32
    requires Kdf.KnownSuite(d.suite) && DescriptorFrom(d.suite, (vs, end)) == Ok(d)
    requires FitAll(DescriptorItems(), vs) && b == PutAll(DescriptorItems(), vs) + end.b
    ensures GoodDescriptor(d) && b == PutAll(DescriptorItems(), DescriptorValues(d))
  {
    DescriptorAsGot(d, vs);
    NothingMore(b, PutAll(DescriptorItems(), vs), end.b);
  }

  lemma DescriptorRowWritten(b: Bytes, s: Byte, r0: In, d: Descriptor)
    requires Kdf.KnownSuite(s) && b == Head(s) + r0.b && DescriptorFrom(s, GotAll(r0, DescriptorItems())) == Ok(d)
    ensures GoodDescriptor(d) && MarshalDescriptor(d) == b
  {
    var (vs, end) := GotAll(r0, DescriptorItems());
    AllWritten(r0, DescriptorItems());
    DescriptorWritten(r0.b, vs, end, d);
    DescriptorPuts(d);
  }

  lemma DecodedDescriptorWritten(b: Bytes)
    requires DecodeDescriptor(b).Ok?
    ensures GoodDescriptor(DecodeDescriptor(b).value) && MarshalDescriptor(DecodeDescriptor(b).value) == b
  {
    var (s, r0) := TakeHead(In(b, false));
    HeadWritten(In(b, false));
    DescriptorGets(s.value, r0);
    DescriptorRowWritten(b, s.value, r0, DecodeDescriptor(b).value);
  }

  lemma DescriptorFits(d: Descriptor)
    requires GoodDescriptor(d)
    ensures FitAll(DescriptorItems(), DescriptorValues(d)) && DescriptorFrom(d.suite, (DescriptorValues(d), In([], false))) == Ok(d)
  {
    WordRoundTrips(d.epoch, Word(0));
    TimeRoundTrips(d.published, Time(0));
    TimeRoundTrips(d.expires, Time(0));
  }

  lemma WrittenDescriptorDecoded(d: Descriptor)
    requires GoodDescriptor(d)
    ensures DecodeDescriptor(MarshalDescriptor(d)) == Ok(d)
  {
    var fields := PutAll(DescriptorItems(), DescriptorValues(d));
    DescriptorPuts(d);
    HeadRead(d.suite, fields);
    DescriptorGets(d.suite, In(fields, false));
    DescriptorFits(d);
    AllRead(DescriptorItems(), DescriptorValues(d), []);
    assert fields + [] == fields;
  }

  /** Parsing is decoding: the comparison with the canonical form that closes it never refuses. */
  lemma ParseDescriptorIsDecode(b: Bytes)
    ensures ParseDescriptor(b) == DecodeDescriptor(b)
  {
    if DecodeDescriptor(b).Ok? {
      DecodedDescriptorWritten(b);
    }
  }

  /** Exactly the well-formed objects survive the round trip, and exactly their encodings are accepted. */
  lemma DescriptorRoundTrips(d: Descriptor, b: Bytes)
    ensures ParseDescriptor(MarshalDescriptor(d)) == Ok(d) <==> GoodDescriptor(d)
    ensures ParseDescriptor(b) == Ok(d) <==> GoodDescriptor(d) && MarshalDescriptor(d) == b
  {
    ParseDescriptorIsDecode(b);
    ParseDescriptorIsDecode(MarshalDescriptor(d));
    if DecodeDescriptor(b).Ok? {
      DecodedDescriptorWritten(b);
    }
    if DecodeDescriptor(MarshalDescriptor(d)).Ok? {
      DecodedDescriptorWritten(MarshalDescriptor(d));
    }
    if GoodDescriptor(d) {
      WrittenDescriptorDecoded(d);
    }
  }

  // ----------------------------------------------------- requests as fields in a row

  function RequestItems(): seq<Item> {
    [Array(16), Counted(1, MAX_NAME), Counted(1, ADDR_SIZE), Counted(1, MAX_KEY), Counted(0, MAX_SIG)]
  }

  function RequestValues(q: Request): seq<Bytes> {
    [q.nonce, q.name, q.addr, q.identity, q.sig]
  }

  lemma RequestPuts(q: Request)
    ensures MarshalRequest(q) == Head(q.suite) + PutAll(RequestItems(), RequestValues(q))
  {
    var fields := PutParts(RequestItems(), RequestValues(q));
    assert RequestParts(q) + [Field(q.sig)] == [Head(q.suite)] + fields;
    ConcatSnoc(RequestParts(q), Field(q.sig));
    ConcatCons(Head(q.suite), fields);
    PutIsConcat(RequestItems(), RequestValues(q));
  }

  function RequestFrom(s: Byte, got: (seq<Bytes>, In), addrOk: Bytes -> bool): Result<Request, Error>
    requires |got.0| == 5 && |got.0[0]| == 16
  {
    var v := got.0;
    if got.1.bad || got.1.b != [] || !ValidName(v[1]) || !addrOk(v[2]) then Err(BadFormat)
    else Ok(Request(s, v[0], v[1], v[2], v[3], v[4]))
  }

  lemma RequestGets(s: Byte, r0: In, addrOk: Bytes -> bool)
    ensures RequestAfter(s, r0, addrOk) == RequestFrom(s, GotAll(r0, RequestItems()), addrOk)
  {
    var i4 := [Counted(0, MAX_SIG)] + [];
    var i3 := [Counted(1, MAX_KEY)] + i4;
    var i2 := [Counted(1, ADDR_SIZE)] + i3;
    var i1 := [Counted(1, MAX_NAME)] + i2;
    assert RequestItems() == [Array(16)] + i1;
    var r1 := TakeFixed(r0, 16).1;
    var r2 := TakeField(r1, 1, MAX_NAME).1;
    var r3 := TakeField(r2, 1, ADDR_SIZE).1;
    var r4 := TakeField(r3, 1, MAX_KEY).1;
    GotFirst(r0, Array(16), i1);
    GotFirst(r1, Counted(1, MAX_NAME), i2);
    GotFirst(r2, Counted(1, ADDR_SIZE), i3);
    GotFirst(r3, Counted(1, MAX_KEY), i4);
    GotFirst(r4, Counted(0, MAX_SIG), []);
  }

  lemma RequestAsGot(q: Request, vs: seq<Bytes>, addrOk: Bytes -> bool)
    requires FitAll(RequestItems(), vs) && Kdf.KnownSuite(q.suite)
    requires RequestFrom(q.suite, (vs, In([], false)), addrOk) == Ok(q)
    ensures RequestValues(q) == vs && GoodRequest(q, addrOk)
  {
    assert Fit(RequestItems()[2], vs[2]) && Fit(RequestItems()[3], vs[3]) && Fit(RequestItems()[4], vs[4]);
  }

  lemma RequestWritten(b: Bytes, vs: seq<Bytes>, end: In, q: Request, addrOk: Bytes -> bool)
    requires |vs| == 5 && |vs[0]| == 16
    requires Kdf.KnownSuite(q.suite) && RequestFrom(q.suite, (vs, end), addrOk) == Ok(q)
    requires FitAll(RequestItems(), vs) && b == PutAll(RequestItems(), vs) + end.b
    ensures GoodRequest(q, addrOk) && b == PutAll(RequestItems(), RequestValues(q))
  {
    RequestAsGot(q, vs, addrOk);
    NothingMore(b, PutAll(RequestItems(), vs), end.b);
  }

  lemma RequestRowWritten(b: Bytes, s: Byte, r0: In, q: Request, addrOk: Bytes -> bool)
    requires Kdf.KnownSuite(s) && b == Head(s) + r0.b && RequestFrom(s, GotAll(r0, RequestItems()), addrOk) == Ok(q)
    ensures GoodRequest(q, addrOk) && MarshalRequest(q) == b
  {
    var (vs, end) := GotAll(r0, RequestItems());
    AllWritten(r0, RequestItems());
    RequestWritten(r0.b, vs, end, q, addrOk);
    RequestPuts(q);
  }

  lemma DecodedRequestWritten(b: Bytes, addrOk: Bytes -> bool)
    requires DecodeRequest(b, addrOk).Ok?
    ensures GoodRequest(DecodeRequest(b, addrOk).value, addrOk) && MarshalRequest(DecodeRequest(b, addrOk).value) == b
  {
    var (s, r0) := TakeHead(In(b, false));
    HeadWritten(In(b, false));
    RequestGets(s.value, r0, addrOk);
    RequestRowWritten(b, s.value, r0, DecodeRequest(b, addrOk).value, addrOk);
  }

  lemma RequestFits(q: Request, addrOk: Bytes -> bool)
    requires GoodRequest(q, addrOk)
    ensures FitAll(RequestItems(), RequestValues(q)) && RequestFrom(q.suite, (RequestValues(q), In([], false)), addrOk) == Ok(q)
  {
  }

  lemma WrittenRequestDecoded(q: Request, addrOk: Bytes -> bool)
    requires GoodRequest(q, addrOk)
    ensures DecodeRequest(MarshalRequest(q), addrOk) == Ok(q)
  {
    var fields := PutAll(RequestItems(), RequestValues(q));
    RequestPuts(q);
    HeadRead(q.suite, fields);
    RequestGets(q.suite, In(fields, false), addrOk);
    RequestFits(q, addrOk);
    AllRead(RequestItems(), RequestValues(q), []);
    assert fields + [] == fields;
  }

  /** Parsing is decoding: the comparison with the canonical form that closes it never refuses. */
  lemma ParseRequestIsDecode(b: Bytes, addrOk: Bytes -> bool)
    ensures ParseRequest(b, addrOk) == DecodeRequest(b, addrOk)
  {
    if DecodeRequest(b, addrOk).Ok? {
      DecodedRequestWritten(b, addrOk);
    }
  }

  /** Exactly the well-formed objects survive the round trip, and exactly their encodings are accepted. */
  lemma RequestRoundTrips(q: Request, b: Bytes, addrOk: Bytes -> bool)
    ensures ParseRequest(MarshalRequest(q), addrOk) == Ok(q) <==> GoodRequest(q, addrOk)
    ensures ParseRequest(b, addrOk) == Ok(q) <==> GoodRequest(q, addrOk) && MarshalRequest(q) == b
  {
    ParseRequestIsDecode(b, addrOk);
    ParseRequestIsDecode(MarshalRequest(q), addrOk);
    if DecodeRequest(b, addrOk).Ok? {
      DecodedRequestWritten(b, addrOk);
    }
    if DecodeRequest(MarshalRequest(q), addrOk).Ok? {
      DecodedRequestWritten(MarshalRequest(q), addrOk);
    }
    if GoodRequest(q, addrOk) {
      WrittenRequestDecoded(q, addrOk);
    }
  }

  /** Why an object is refused: its first byte, then its second, and everything else is one error. */
  ghost predicate RefusedFor(b: Bytes, error: Option<Error>) {
    && (error == Some(BadVersion) <==> |b| >= 2 && b[0] != 1)
    && (error == Some(BadSuite) <==> |b| >= 2 && b[0] == 1 && b[1] !in {1, 2})
  }

  function ErrorOf<T>(r: Result<T, Error>): Option<Error> {
    if r.Err? then Some(r.error) else None
  }

  lemma CertClasses(b: Bytes, addrOk: Bytes -> bool)
    ensures RefusedFor(b, ErrorOf(ParseCert(b, addrOk)))
  {
    ParseCertIsDecode(b, addrOk);
    HeadClasses(b);
  }

  lemma DescriptorClasses(b: Bytes)
    ensures RefusedFor(b, ErrorOf(ParseDescriptor(b)))
  {
    ParseDescriptorIsDecode(b);
    HeadClasses(b);
  }

  lemma RequestClasses(b: Bytes, addrOk: Bytes -> bool)
    ensures RefusedFor(b, ErrorOf(ParseRequest(b, addrOk)))
  {
    ParseRequestIsDecode(b, addrOk);
    HeadClasses(b);
  }

  lemma HeadClasses(b: Bytes)
    ensures RefusedFor(b, ErrorOf(TakeHead(In(b, false)).0))
    ensures TakeHead(In(b, false)).0.Ok? ==> |b| >= 2
  {}

  // --------------------------------------------------------------- what is signed

  /** "jimichi/cert/v1" and a zero byte */
  const CERT_DOMAIN: Bytes := [0x6a, 0x69, 0x6d, 0x69, 0x63, 0x68, 0x69, 0x2f, 0x63, 0x65, 0x72, 0x74, 0x2f, 0x76, 0x31, 0]
  /** "jimichi/descriptor/v1" and a zero byte */
  const DESCRIPTOR_DOMAIN: Bytes := [0x6a, 0x69, 0x6d, 0x69, 0x63, 0x68, 0x69, 0x2f, 0x64, 0x65, 0x73, 0x63, 0x72, 0x69, 0x70, 0x74, 0x6f, 0x72, 0x2f, 0x76, 0x31, 0]
  /** "jimichi/csr/v1" and a zero byte */
  const REQUEST_DOMAIN: Bytes := [0x6a, 0x69, 0x6d, 0x69, 0x63, 0x68, 0x69, 0x2f, 0x63, 0x73, 0x72, 0x2f, 0x76, 0x31, 0]

  function Signed(domain: Bytes, body: Bytes): Bytes {
    domain + body
  }

  /** No message signed for one kind of object is one signed for another. */
  lemma DomainsApart(x: Bytes, y: Bytes)
    ensures Signed(CERT_DOMAIN, x) != Signed(DESCRIPTOR_DOMAIN, y)
    ensures Signed(CERT_DOMAIN, x) != Signed(REQUEST_DOMAIN, y)
    ensures Signed(DESCRIPTOR_DOMAIN, x) != Signed(REQUEST_DOMAIN, y)
  {
    assert Signed(CERT_DOMAIN, x)[8] == 0x63 && Signed(CERT_DOMAIN, x)[9] == 0x65;
    assert Signed(DESCRIPTOR_DOMAIN, y)[8] == 0x64 && Signed(DESCRIPTOR_DOMAIN, x)[8] == 0x64;
    assert Signed(REQUEST_DOMAIN, y)[8] == 0x63 && Signed(REQUEST_DOMAIN, y)[9] == 0x73;
  }

  /** A signed message says everything about its object but the signature. */
  lemma CertSignedOnce(c: Cert, d: Cert, addrOk: Bytes -> bool)
    requires GoodCert(c, addrOk) && GoodCert(d, addrOk)
    requires Signed(CERT_DOMAIN, CertBody(c)) == Signed(CERT_DOMAIN, CertBody(d))
    ensures c.(sig := []) == d.(sig := [])
  {
    SameBody(CERT_DOMAIN, CertBody(c), CertBody(d));
    WrittenCertDecoded(c.(sig := []), addrOk);
    WrittenCertDecoded(d.(sig := []), addrOk);
  }

  lemma DescriptorSignedOnce(c: Descriptor, d: Descriptor)
    requires GoodDescriptor(c) && GoodDescriptor(d)
    requires Signed(DESCRIPTOR_DOMAIN, DescriptorBody(c)) == Signed(DESCRIPTOR_DOMAIN, DescriptorBody(d))
    ensures c.(sig := []) == d.(sig := [])
  {
    SameBody(DESCRIPTOR_DOMAIN, DescriptorBody(c), DescriptorBody(d));
    WrittenDescriptorDecoded(c.(sig := []));
    WrittenDescriptorDecoded(d.(sig := []));
  }

  lemma RequestSignedOnce(c: Request, d: Request, addrOk: Bytes -> bool)
    requires GoodRequest(c, addrOk) && GoodRequest(d, addrOk)
    requires Signed(REQUEST_DOMAIN, RequestBody(c)) == Signed(REQUEST_DOMAIN, RequestBody(d))
    ensures c.(sig := []) == d.(sig := [])
  {
    SameBody(REQUEST_DOMAIN, RequestBody(c), RequestBody(d));
    WrittenRequestDecoded(c.(sig := []), addrOk);
    WrittenRequestDecoded(d.(sig := []), addrOk);
  }

  lemma SameBody(domain: Bytes, x: Bytes, y: Bytes)
    requires domain + x == domain + y
    ensures x == y
  {
    assert (domain + x)[|domain|..] == x;
    assert (domain + y)[|domain|..] == y;
  }
}
