/** The fake-TLS handshake of the mtg proxy: the ClientHello whose random field is a
    MAC, and the three-record welcome packet that must answer it. */
module FakeTls {
  import opened Wrappers
  import opened Bytes
  import opened Sequences

  const HELLO_LEN := 517
  const RANDOM_OFFSET := 11
  const RANDOM_END := 43

  // ---- the ClientHello ----

  // Record header (length 512), then handshake header (length 508) and version.
  const HELLO_HEADERS: Bytes := [0x16, 3, 1, 2, 0, 1, 0, 1, 0xfc, 3, 3]
  const CIPHER_SUITES: Bytes := [
    0x00, 0x22, 0x4a, 0x4a, 0x13, 0x01, 0x13, 0x02, 0x13, 0x03, 0xc0, 0x2b, 0xc0, 0x2f, 0xc0, 0x2c, 0xc0, 0x30,
    0xcc, 0xa9, 0xcc, 0xa8, 0xc0, 0x13, 0xc0, 0x14, 0x00, 0x9c, 0x00, 0x9d, 0x00, 0x2f, 0x00, 0x35, 0x00, 0x0a]
  // Extension payloads, after the four bytes of type and declared length.
  const GROUPS: Bytes := [0x00, 0x06, 0x00, 0x1d, 0x00, 0x17, 0x00, 0x18]
  const POINT_FORMATS: Bytes := [0x01, 0x00]
  const ALGORITHMS: Bytes := [
    0x00, 0x12, 0x04, 0x03, 0x08, 0x04, 0x04, 0x01, 0x05, 0x03,
    0x02, 0x03, 0x08, 0x05, 0x05, 0x01, 0x08, 0x06, 0x06, 0x01, 0x02, 0x01]
  const VERSIONS: Bytes := [0x04, 0x03, 0x04, 0x03, 0x03]
  const KEY_SHARE: Bytes := [0x00, 0x24, 0x00, 0x1d, 0x00, 0x20]

  datatype HelloError = LengthOverflow | WrongLength(len: nat)

  // One extension with the length its header declares.
  function Ext(kind: nat, declared: nat, payload: Bytes): (s: Bytes)
    requires kind < 0x1_0000 && declared < 0x1_0000
    ensures |s| == 4 + |payload|
  {
    U16(kind) + U16(declared) + payload
  }

  function SniList(sni: Bytes): (s: Bytes)
    requires |sni| <= 0xFFFF - 5
    ensures |s| == |sni| + 5
  {
    U16(|sni| + 3) + [0] + U16(|sni|) + sni
  }

  function Padding(len: int): (s: Bytes)
    requires len <= 0xFFFF
    ensures |s| == if len > 0 then len else 0
  {
    if len >= 4 then [0x00, 0x15] + U16(len - 4) + Zeros(len - 4)
    else if len > 0 then Zeros(len)
    else []
  }

  // Everything up to the length of the extension block, the random still zero.
  function HelloPrefix(sessionId: Bytes): (s: Bytes)
    requires |sessionId| == 32
    ensures |s| == 114
  {
    HELLO_HEADERS + Zeros(32) + ([0x20] + sessionId + CIPHER_SUITES + [1, 0])
  }

  function FrontExtensions(sni: Bytes): (s: Bytes)
    requires |sni| <= 0xFFFF - 5
    ensures |s| == 71 + |sni|
  {
    Ext(0x17, 0, []) + Ext(0xff01, 1, [0]) + Ext(0, |sni| + 5, SniList(sni))
    + Ext(10, 8, GROUPS) + Ext(11, 2, POINT_FORMATS) + Ext(13, 20, ALGORITHMS) + Ext(43, 5, VERSIONS)
  }

  function Extensions(sni: Bytes, share: Bytes): (s: Bytes)
    requires |sni| <= 0xFFFF - 5 && |share| == 32
    ensures |s| == if |sni| <= 282 then 401 else 119 + |sni|
  {
    FrontExtensions(sni) + (Ext(45, 2, [1, 1]) + Ext(51, 38, KEY_SHARE + share) + Padding(282 - |sni|))
  }

  // A length that does not fit its two bytes raises in the source.
  function ZeroedHello(sessionId: Bytes, sni: Bytes, share: Bytes): Result<Bytes, HelloError>
    requires |sessionId| == 32 && |share| == 32
  {
    if |sni| > 0xFFFF - 5 then Err(LengthOverflow)
    else
      var ext := Extensions(sni, share);
      if |ext| > 0xFFFF then Err(LengthOverflow)
      else
        var hello := HelloPrefix(sessionId) + U16(|ext|) + ext;
        if |hello| != HELLO_LEN then Err(WrongLength(|hello|)) else Ok(hello)
  }

  // The MAC with the clock XORed into its last four bytes.
  function HelloRandom(c: Crypto, key: Bytes, zeroed: Bytes, clock: nat): (r: Bytes)
    ensures |r| == 32
  {
    var digest := c.hmac(key, zeroed);
    digest[..28] + Xor(digest[28..], LittleEndian(clock, 4))
  }

  function WithRandom(packet: Bytes, random: Bytes): (s: Bytes)
    requires |packet| >= RANDOM_END && |random| == 32
    ensures |s| == |packet|
  {
    packet[..RANDOM_OFFSET] + random + packet[RANDOM_END..]
  }

  /** Builds the hello as the source does: append, measure, pad, then overwrite the
      random field with the MAC whose tail carries the clock. */
  method BuildClientHello(c: Crypto, key: Bytes, sessionId: Bytes, sni: Bytes, share: Bytes, clock: nat)
    returns (r: Result<Bytes, HelloError>, random: Bytes)
    requires |sessionId| == 32 && |share| == 32
    requires clock < 0x1_0000_0000
    ensures var z := ZeroedHello(sessionId, sni, share);
      r == if z.Err? then Err(z.error) else Ok(WithRandom(z.value, HelloRandom(c, key, z.value, clock)))
    ensures r.Ok? ==> random == r.value[RANDOM_OFFSET..RANDOM_END]
  {
    random := [];
    if |sni| > 0xFFFF - 5 {
      return Err(LengthOverflow), random;
    }
    var ext := BuildExtensions(sni, share);
    if |ext| > 0xFFFF {
      return Err(LengthOverflow), random;
    }
    var hello := HelloPrefix(sessionId) + U16(|ext|) + ext;
    if |hello| != HELLO_LEN {
      return Err(WrongLength(|hello|)), random;
    }
    random := MaskClock(c.hmac(key, hello), clock);
    r := Ok(WithRandom(hello, random));
  }

  method BuildExtensions(sni: Bytes, share: Bytes) returns (ext: Bytes)
    requires |sni| <= 0xFFFF - 5 && |share| == 32
    ensures ext == Extensions(sni, share)
  {
    ext := BuildFront(sni);
    ghost var front := ext;
    ext := ext + Ext(45, 2, [1, 1]);
    ext := ext + Ext(51, 38, KEY_SHARE + share);
    // what is in front of the block: headers, version, random, ids, suites, two lengths
    var fixedPrefix := 5 + 4 + 2 + 32 + 1 + 32 + 2 + 34 + 1 + 1 + 2;
    var padLen := HELLO_LEN - fixedPrefix - |ext|;
    assert padLen == 282 - |sni|;
    RegroupFour(front, Ext(45, 2, [1, 1]), Ext(51, 38, KEY_SHARE + share), Padding(padLen));
    ext := ext + Padding(padLen);
  }

  lemma RegroupFour(a: Bytes, b: Bytes, c: Bytes, d: Bytes)
    ensures a + b + c + d == a + (b + c + d)
  {
  }

  method BuildFront(sni: Bytes) returns (ext: Bytes)
    requires |sni| <= 0xFFFF - 5
    ensures ext == FrontExtensions(sni)
  {
    ext := Ext(0x17, 0, []);
    ext := ext + Ext(0xff01, 1, [0]);
    ext := ext + Ext(0, |SniList(sni)|, SniList(sni));
    ext := ext + Ext(10, 8, GROUPS);
    ext := ext + Ext(11, 2, POINT_FORMATS);
    ext := ext + Ext(13, 20, ALGORITHMS);
    ext := ext + Ext(43, 5, VERSIONS);
  }

  method MaskClock(digest: Digest, clock: nat) returns (random: Bytes)
    ensures random == digest[..28] + Xor(digest[28..], LittleEndian(clock, 4))
  {
    var stamp := LittleEndian(clock, 4);
    var patched := new Byte[32](i => if 0 <= i < 32 then digest[i] else 0);
    assert patched[..] == digest;
    for i := 0 to 4
      invariant patched[..28] == digest[..28]
      invariant forall j :: 28 <= j < 28 + i ==> patched[j] == XorByte(digest[j], stamp[j - 28])
      invariant forall j :: 28 + i <= j < 32 ==> patched[j] == digest[j]
    {
      patched[28 + i] := XorByte(patched[28 + i], stamp[i]);
    }
    assert patched[28..] == Xor(digest[28..], stamp);
    random := patched[..28] + patched[28..];
  }

  /** The hello is 517 bytes exactly when the host name has at most 282; a longer
      name is refused, by an exception once a two-byte length overflows. */
  lemma HelloLengthExactly(sessionId: Bytes, sni: Bytes, share: Bytes)
    requires |sessionId| == 32 && |share| == 32
    ensures ZeroedHello(sessionId, sni, share).Ok? <==> |sni| <= 282
    ensures ZeroedHello(sessionId, sni, share).Ok? ==> |ZeroedHello(sessionId, sni, share).value| == HELLO_LEN
    ensures ZeroedHello(sessionId, sni, share) == Err(LengthOverflow) <==> |sni| > 0xFFFF - 119
  {}

  // `piece` sits in `s` at offset `at`.
  ghost predicate Holds(s: Bytes, at: nat, piece: Bytes)
  {
    && at + |piece| <= |s|
    && forall i :: 0 <= i < |piece| ==> s[at + i] == piece[i]
  }

  function FieldAt(s: Bytes, at: nat): nat
    requires at + 2 <= |s|
  {
    256 * s[at] as int + s[at + 1] as int
  }

  lemma FieldHeld(s: Bytes, at: nat, n: nat)
    requires n < 0x1_0000 && Holds(s, at, U16(n))
    ensures FieldAt(s, at) == n
  {
    assert U16(n)[0] == n / 256 && U16(n)[1] == n % 256;
  }

  lemma HeldInside(s: Bytes, at: nat, a: Bytes, b: Bytes, c: Bytes)
    requires Holds(s, at, a + b + c)
    ensures Holds(s, at + |a|, b)
  {
    forall i | 0 <= i < |b|
      ensures s[at + |a| + i] == b[i]
    {
      assert (a + b + c)[|a| + i] == b[i];
    }
  }

  lemma SplitHeld(block: Bytes, at: nat, x: Bytes, y: Bytes)
    requires Holds(block, at, x + y)
    ensures Holds(block, at, x) && Holds(block, at + |x|, y)
  {
    forall i | 0 <= i < |y|
      ensures block[at + |x| + i] == y[i]
    {
      assert (x + y)[|x| + i] == y[i];
    }
    forall i | 0 <= i < |x|
      ensures block[at + i] == x[i]
    {
      assert (x + y)[i] == x[i];
    }
  }

  // The pieces of a concatenation are found at their offsets.
  lemma FrontPieces(block: Bytes, e: Bytes, r: Bytes, s: Bytes, g: Bytes)
    requires |e| == 4 && |r| == 5 && Holds(block, 0, e + r + s + g)
    ensures Holds(block, 0, e) && Holds(block, 4, r) && Holds(block, 9, s) && Holds(block, 9 + |s|, g)
  {
    SplitHeld(block, 0, e + r + s, g);
    SplitHeld(block, 0, e + r, s);
    SplitHeld(block, 0, e, r);
  }

  lemma BackPieces(block: Bytes, front: Bytes, f: Bytes, a: Bytes, v: Bytes, rest: Bytes, m: nat)
    requires |front| == m && |f| == 6 && |a| == 26 && |v| == 9 && Holds(block, 0, front + f + a + v + rest)
    ensures Holds(block, 0, front) && Holds(block, m, f) && Holds(block, 6 + m, a)
    ensures Holds(block, 32 + m, v) && Holds(block, 41 + m, rest)
  {
    SplitHeld(block, 0, front + f + a + v, rest);
    SplitHeld(block, 0, front + f + a, v);
    SplitHeld(block, 0, front + f, a);
    SplitHeld(block, 0, front, f);
  }

  lemma PiecesOfSize(e: Bytes, r: Bytes, s: Bytes, g: Bytes, f: Bytes, a: Bytes, v: Bytes, rest: Bytes, n: nat)
    requires |e| == 4 && |r| == 5 && |s| == 9 + n && |g| == 12 && |f| == 6 && |a| == 26 && |v| == 9
    ensures var block := e + r + s + g + f + a + v + rest;
      && Holds(block, 0, e) && Holds(block, 4, r) && Holds(block, 9, s) && Holds(block, 18 + n, g)
      && Holds(block, 30 + n, f) && Holds(block, 36 + n, a) && Holds(block, 62 + n, v) && Holds(block, 71 + n, rest)
  {
    var front := e + r + s + g;
    var block := front + f + a + v + rest;
    BackPieces(block, front, f, a, v, rest, 30 + n);
    FrontPieces(block, e, r, s, g);
  }

  lemma ExtensionOffsets(sni: Bytes, share: Bytes)
    requires |share| == 32 && |sni| <= 282
    ensures var ext := Extensions(sni, share); var n := |sni|;
      && Holds(ext, 0, Ext(0x17, 0, []))
      && Holds(ext, 4, Ext(0xff01, 1, [0]))
      && Holds(ext, 9, Ext(0, n + 5, SniList(sni)))
      && Holds(ext, 18 + n, Ext(10, 8, GROUPS))
      && Holds(ext, 30 + n, Ext(11, 2, POINT_FORMATS))
      && Holds(ext, 36 + n, Ext(13, 20, ALGORITHMS))
      && Holds(ext, 62 + n, Ext(43, 5, VERSIONS))
      && Holds(ext, 71 + n, Ext(45, 2, [1, 1]) + Ext(51, 38, KEY_SHARE + share) + Padding(282 - n))
  {
    PiecesOfSize(Ext(0x17, 0, []), Ext(0xff01, 1, [0]), Ext(0, |sni| + 5, SniList(sni)), Ext(10, 8, GROUPS),
                 Ext(11, 2, POINT_FORMATS), Ext(13, 20, ALGORITHMS), Ext(43, 5, VERSIONS),
                 Ext(45, 2, [1, 1]) + Ext(51, 38, KEY_SHARE + share) + Padding(282 - |sni|), |sni|);
  }

  // An extension header at `pos`: its type, and where its declared length says the next one starts.
  function KindAt(block: Bytes, pos: nat): nat
    requires pos + 4 <= |block|
  {
    FieldAt(block, pos)
  }

  function NextAt(block: Bytes, pos: nat): (next: nat)
    requires pos + 4 <= |block|
    ensures next >= pos + 4
  {
    pos + 4 + FieldAt(block, pos + 2)
  }

  lemma HeaderHeld(block: Bytes, at: nat, kind: nat, declared: nat, payload: Bytes)
    requires kind < 0x1_0000 && declared < 0x1_0000 && Holds(block, at, Ext(kind, declared, payload))
    ensures KindAt(block, at) == kind && NextAt(block, at) == at + 4 + declared
    ensures Holds(block, at + 4, payload)
  {
    assert [] + U16(kind) + (U16(declared) + payload) == Ext(kind, declared, payload);
    HeldInside(block, at, [], U16(kind), U16(declared) + payload);
    FieldHeld(block, at, kind);
    HeldInside(block, at, U16(kind), U16(declared), payload);
    FieldHeld(block, at + 2, declared);
    assert U16(kind) + U16(declared) + payload + [] == Ext(kind, declared, payload);
    HeldInside(block, at, U16(kind) + U16(declared), payload, []);
  }

  lemma SniListFields(block: Bytes, at: nat, sni: Bytes)
    requires |sni| <= 282 && Holds(block, at, SniList(sni))
    ensures FieldAt(block, at) == |sni| + 3 && FieldAt(block, at + 3) == |sni| && Holds(block, at + 5, sni)
  {
    var n := |sni|;
    assert [] + U16(n + 3) + ([0] + U16(n) + sni) == SniList(sni);
    HeldInside(block, at, [], U16(n + 3), [0] + U16(n) + sni);
    FieldHeld(block, at, n + 3);
    HeldInside(block, at, U16(n + 3) + [0], U16(n), sni);
    FieldHeld(block, at + 3, n);
    assert U16(n + 3) + [0] + U16(n) + sni + [] == SniList(sni);
    HeldInside(block, at, U16(n + 3) + [0] + U16(n), sni, []);
  }

  /** Each length field of the server_name extension equals what it covers. */
  lemma SniLengthFields(sni: Bytes, share: Bytes)
    requires |share| == 32 && |sni| <= 282
    ensures var ext := Extensions(sni, share); var n := |sni|;
      && KindAt(ext, 9) == 0 && NextAt(ext, 9) == 18 + n    // the extension: its payload ends where it says
      && FieldAt(ext, 13) == n + 3                          // the name list
      && FieldAt(ext, 16) == n && Holds(ext, 18, sni)       // the name
  {
    ExtensionOffsets(sni, share);
    HeaderHeld(Extensions(sni, share), 9, 0, |sni| + 5, SniList(sni));
    SniListFields(Extensions(sni, share), 13, sni);
  }

  /** Up to 278 bytes of host name the block ends in a padding extension whose length
      runs exactly to the end; above that there is none. */
  lemma PaddingLengthField(sni: Bytes, share: Bytes)
    requires |share| == 32 && |sni| <= 278
    ensures var ext := Extensions(sni, share);
      KindAt(ext, 119 + |sni|) == 0x15 && NextAt(ext, 119 + |sni|) == |ext|
  {
    ExtensionOffsets(sni, share);
    HeldAtEnd(Extensions(sni, share), 71 + |sni|, Ext(45, 2, [1, 1]) + Ext(51, 38, KEY_SHARE + share),
              Padding(282 - |sni|));
    PaddingIsExtension(282 - |sni|);
    HeaderHeld(Extensions(sni, share), 119 + |sni|, 0x15, 278 - |sni|, Zeros(278 - |sni|));
  }

  lemma HeldAtEnd(s: Bytes, at: nat, a: Bytes, b: Bytes)
    requires Holds(s, at, a + b)
    ensures Holds(s, at + |a|, b)
  {
    assert a + b + [] == a + b;
    HeldInside(s, at, a, b, []);
  }

  lemma PaddingIsExtension(len: nat)
    requires 4 <= len <= 0xFFFF
    ensures Padding(len) == Ext(0x15, len - 4, Zeros(len - 4))
  {
    assert U16(0x15) == [0x00, 0x15];
  }

  /** The record, handshake, session-id and extension-block lengths likewise. */
  lemma HelloLengthFields(sessionId: Bytes, sni: Bytes, share: Bytes)
    requires |sessionId| == 32 && |share| == 32 && |sni| <= 282
    ensures var hello := ZeroedHello(sessionId, sni, share).value;
      && FieldAt(hello, 3) == |hello| - 5
      && hello[6] == 0 && FieldAt(hello, 7) == |hello| - 9
      && hello[43] as int == |sessionId| && Holds(hello, 44, sessionId)
      && FieldAt(hello, 114) == |hello| - 116
      && hello[116..] == Extensions(sni, share)
  {
    var ext := Extensions(sni, share);
    var hello := HelloPrefix(sessionId) + U16(|ext|) + ext;
    var tail := [0x20] + sessionId + CIPHER_SUITES + [1, 0];
    assert tail[0] == 0x20;
    forall i | 0 <= i < 32
      ensures hello[44 + i] == sessionId[i]
    {
      assert tail[1 + i] == sessionId[i];
      assert HelloPrefix(sessionId)[44 + i] == tail[1 + i];
    }
    assert hello[43] == tail[0];
    assert forall i :: 0 <= i < 11 ==> hello[i] == HELLO_HEADERS[i];
    assert hello[114] == U16(|ext|)[0] && hello[115] == U16(|ext|)[1];
  }

  // ---- what the hello says ----

  lemma FivePieces(a: Bytes, b: Bytes, c: Bytes, d: Bytes, e: Bytes, rest: Bytes)
    requires |a| == 11 && |b| == 32 && |c| == 33 && |d| == 36 && |e| == 2
    ensures var s := a + b + (c + d + e) + rest;
      s[..11] == a && s[11..43] == b && s[43..76] == c && s[76..112] == d && s[112..114] == e
  {
  }

  /** A handshake record of version 3.1 with a ClientHello of version 3.3, the zeroed random, the
      cipher suites with a GREASE value in front, and no compression. */
  lemma HelloFixedFields(sessionId: Bytes, sni: Bytes, share: Bytes)
    requires |sessionId| == 32 && |share| == 32 && |sni| <= 282
    ensures var hello := ZeroedHello(sessionId, sni, share).value;
      && hello[..11] == HELLO_HEADERS && hello[11..43] == Zeros(32) && hello[43..76] == [0x20] + sessionId
      && hello[76..112] == CIPHER_SUITES && hello[112..114] == [1, 0]
    ensures HELLO_HEADERS == [0x16, 3, 1, 2, 0, 1, 0, 1, 0xfc, 3, 3]
    ensures CIPHER_SUITES == [
      0x00, 0x22, 0x4a, 0x4a, 0x13, 0x01, 0x13, 0x02, 0x13, 0x03, 0xc0, 0x2b, 0xc0, 0x2f, 0xc0, 0x2c, 0xc0, 0x30,
      0xcc, 0xa9, 0xcc, 0xa8, 0xc0, 0x13, 0xc0, 0x14, 0x00, 0x9c, 0x00, 0x9d, 0x00, 0x2f, 0x00, 0x35, 0x00, 0x0a]
  {
    var ext := Extensions(sni, share);
    FivePieces(HELLO_HEADERS, Zeros(32), [0x20] + sessionId, CIPHER_SUITES, [1, 0], U16(|ext|) + ext);
    Regroup(HelloPrefix(sessionId), U16(|ext|), ext);
  }

  /** The extensions offer the groups x25519, secp256r1 and secp384r1, uncompressed points, the ten
      signature algorithms, versions 3.4 and 3.3, one key exchange mode, and an x25519 key. */
  lemma HelloOffers(sni: Bytes, share: Bytes)
    requires |share| == 32 && |sni| <= 282
    ensures var ext := Extensions(sni, share); var n := |sni|;
      && Holds(ext, 22 + n, GROUPS) && Holds(ext, 34 + n, POINT_FORMATS) && Holds(ext, 40 + n, ALGORITHMS)
      && Holds(ext, 66 + n, VERSIONS) && Holds(ext, 75 + n, [1, 1])
      && Holds(ext, 81 + n, KEY_SHARE) && Holds(ext, 87 + n, share)
    ensures GROUPS == [0, 6, 0x00, 0x1d, 0x00, 0x17, 0x00, 0x18] && POINT_FORMATS == [1, 0]
    ensures ALGORITHMS == [0, 18, 0x04, 0x03, 0x08, 0x04, 0x04, 0x01, 0x05, 0x03, 0x02, 0x03,
                           0x08, 0x05, 0x05, 0x01, 0x08, 0x06, 0x06, 0x01, 0x02, 0x01]
    ensures VERSIONS == [4, 0x03, 0x04, 0x03, 0x03] && KEY_SHARE == [0, 36, 0x00, 0x1d, 0, 32]
  {
    var ext, n := Extensions(sni, share), |sni|;
    HeadersInPlace(sni, share);
    SplitHeld(ext, 81 + n, KEY_SHARE, share);
  }

  // ---- the one extension whose length is wrong ----

  // Where the extensions stand: the padding extension exists up to 278 bytes of host name.
  function Offsets(n: nat): seq<nat>
  {
    [0, 4, 9, 18 + n, 30 + n, 36 + n, 62 + n, 71 + n, 77 + n] + if n <= 278 then [119 + n] else []
  }

  const KINDS: seq<nat> := [0x17, 0xff01, 0, 10, 11, 13, 43, 45, 51, 0x15]

  // Where the payload of extension `i` ends.
  function EndOf(n: nat, i: nat): nat
    requires n <= 282 && i < |Offsets(n)|
  {
    if i < 8 then Offsets(n)[i + 1] else if i == 8 then 119 + n else 401
  }

  // The header at `at` has this type, and its declared length leads to `next`.
  ghost predicate Header(block: Bytes, at: nat, kind: nat, next: nat)
  {
    at + 4 <= |block| && KindAt(block, at) == kind && NextAt(block, at) == next
  }

  lemma FirstHeaders(block: Bytes, n: nat, list: Bytes)
    requires |list| == n + 5 && n + 5 < 0x1_0000
    requires Holds(block, 0, Ext(0x17, 0, [])) && Holds(block, 4, Ext(0xff01, 1, [0]))
    requires Holds(block, 9, Ext(0, n + 5, list))
    ensures Header(block, 0, 0x17, 4) && Header(block, 4, 0xff01, 9) && Header(block, 9, 0, 18 + n)
  {
    HeaderHeld(block, 0, 0x17, 0, []);
    HeaderHeld(block, 4, 0xff01, 1, [0]);
    HeaderHeld(block, 9, 0, n + 5, list);
  }

  lemma MiddleHeaders(block: Bytes, n: nat)
    requires Holds(block, 18 + n, Ext(10, 8, GROUPS)) && Holds(block, 30 + n, Ext(11, 2, POINT_FORMATS))
    requires Holds(block, 36 + n, Ext(13, 20, ALGORITHMS)) && Holds(block, 62 + n, Ext(43, 5, VERSIONS))
    ensures Header(block, 18 + n, 10, 30 + n) && Header(block, 30 + n, 11, 36 + n)
    ensures Header(block, 36 + n, 13, 60 + n) && Header(block, 62 + n, 43, 71 + n)
    ensures Holds(block, 22 + n, GROUPS) && Holds(block, 34 + n, POINT_FORMATS)
    ensures Holds(block, 40 + n, ALGORITHMS) && Holds(block, 66 + n, VERSIONS)
  {
    HeaderHeld(block, 18 + n, 10, 8, GROUPS);
    HeaderHeld(block, 30 + n, 11, 2, POINT_FORMATS);
    HeaderHeld(block, 36 + n, 13, 20, ALGORITHMS);
    HeaderHeld(block, 62 + n, 43, 5, VERSIONS);
  }

  lemma LastPieces(block: Bytes, n: nat, share: Bytes, padding: Bytes)
    requires |share| == 32
    requires Holds(block, 71 + n, Ext(45, 2, [1, 1]) + Ext(51, 38, KEY_SHARE + share) + padding)
    ensures Header(block, 71 + n, 45, 77 + n) && Header(block, 77 + n, 51, 119 + n)
    ensures Holds(block, 75 + n, [1, 1]) && Holds(block, 81 + n, KEY_SHARE + share) && Holds(block, 119 + n, padding)
  {
    SplitHeld(block, 71 + n, Ext(45, 2, [1, 1]) + Ext(51, 38, KEY_SHARE + share), padding);
    SplitHeld(block, 71 + n, Ext(45, 2, [1, 1]), Ext(51, 38, KEY_SHARE + share));
    HeaderHeld(block, 71 + n, 45, 2, [1, 1]);
    HeaderHeld(block, 77 + n, 51, 38, KEY_SHARE + share);
  }

  // All headers where they belong, the declared lengths as they are.
  ghost predicate InPlace(ext: Bytes, n: nat)
  {
    && Header(ext, 0, 0x17, 4) && Header(ext, 4, 0xff01, 9) && Header(ext, 9, 0, 18 + n)
    && Header(ext, 18 + n, 10, 30 + n) && Header(ext, 30 + n, 11, 36 + n) && Header(ext, 36 + n, 13, 60 + n)
    && Header(ext, 62 + n, 43, 71 + n) && Header(ext, 71 + n, 45, 77 + n) && Header(ext, 77 + n, 51, 119 + n)
    && (n <= 278 ==> Header(ext, 119 + n, 0x15, 401))
  }

  // The payloads behind them.
  ghost predicate Payloads(ext: Bytes, n: nat, share: Bytes)
  {
    && Holds(ext, 8, [0])
    && Holds(ext, 22 + n, GROUPS) && Holds(ext, 34 + n, POINT_FORMATS)
    && Holds(ext, 40 + n, ALGORITHMS) && Holds(ext, 66 + n, VERSIONS)
    && Holds(ext, 75 + n, [1, 1]) && Holds(ext, 81 + n, KEY_SHARE + share)
  }

  lemma LaidOut(ext: Bytes, n: nat, list: Bytes, share: Bytes, padding: Bytes)
    requires |list| == n + 5 && n <= 282 && |share| == 32
    requires Holds(ext, 0, Ext(0x17, 0, [])) && Holds(ext, 4, Ext(0xff01, 1, [0])) && Holds(ext, 9, Ext(0, n + 5, list))
    requires Holds(ext, 18 + n, Ext(10, 8, GROUPS)) && Holds(ext, 30 + n, Ext(11, 2, POINT_FORMATS))
    requires Holds(ext, 36 + n, Ext(13, 20, ALGORITHMS)) && Holds(ext, 62 + n, Ext(43, 5, VERSIONS))
    requires Holds(ext, 71 + n, Ext(45, 2, [1, 1]) + Ext(51, 38, KEY_SHARE + share) + padding)
    requires n <= 278 ==> Header(ext, 119 + n, 0x15, 401)
    ensures InPlace(ext, n) && Payloads(ext, n, share) && Holds(ext, 119 + n, padding)
  {
    FirstHeaders(ext, n, list);
    HeaderHeld(ext, 4, 0xff01, 1, [0]);
    MiddleHeaders(ext, n);
    LastPieces(ext, n, share, padding);
  }

  lemma HeadersInPlace(sni: Bytes, share: Bytes)
    requires |share| == 32 && |sni| <= 282
    ensures var ext := Extensions(sni, share);
      InPlace(ext, |sni|) && Payloads(ext, |sni|, share) && Holds(ext, 119 + |sni|, Padding(282 - |sni|))
  {
    var ext, list, padding := Extensions(sni, share), SniList(sni), Padding(282 - |sni|);
    ExtensionOffsets(sni, share);
    if |sni| <= 278 {
      PaddingLengthField(sni, share);
    }
    assert |list| == |sni| + 5;
    LaidOut(ext, |sni|, list, share, padding);
  }

  lemma LengthsOf(ext: Bytes, n: nat, i: nat)
    requires InPlace(ext, n) && n <= 282 && i < |Offsets(n)|
    ensures Header(ext, Offsets(n)[i], KINDS[i], if i == 5 then EndOf(n, i) - 2 else EndOf(n, i))
    ensures KINDS[i] == 13 <==> i == 5
  {
  }

  /** The extensions stand where their payloads end, and an extension's declared length leads
      there if and only if it is not `signature_algorithms`, which declares two bytes less. */
  lemma OneLengthIsWrong(sni: Bytes, share: Bytes, i: nat)
    requires |share| == 32 && |sni| <= 282 && i < |Offsets(|sni|)|
    ensures var ext := Extensions(sni, share); var at := Offsets(|sni|)[i];
      && at + 4 <= |ext| && KindAt(ext, at) == KINDS[i]
      && (NextAt(ext, at) == EndOf(|sni|, i) <==> KindAt(ext, at) != 13)
      && (KindAt(ext, at) == 13 ==> NextAt(ext, at) == EndOf(|sni|, i) - 2)
  {
    HeadersInPlace(sni, share);
    LengthsOf(Extensions(sni, share), |sni|, i);
  }

  // Every length inside a payload, against what follows it; the last clause of each line is
  // the end of that payload.
  ghost predicate InnerLengths(ext: Bytes, n: nat)
  {
    && |ext| >= 119 + n
    && ext[8] == 0                                              // renegotiation_info: nothing
    && FieldAt(ext, 22 + n) == 30 + n - (24 + n)                // supported_groups
    && ext[34 + n] as int == 36 + n - (35 + n)                  // ec_point_formats
    && ext[66 + n] as int == 71 + n - (67 + n)                  // supported_versions
    && ext[75 + n] as int == 77 + n - (76 + n)                  // psk_key_exchange_modes
    && FieldAt(ext, 81 + n) == 119 + n - (83 + n)               // key_share: its only entry
    && FieldAt(ext, 85 + n) == 119 + n - (87 + n)               // ... and the key in it
  }

  lemma InnerOf(ext: Bytes, n: nat, share: Bytes)
    requires |share| == 32 && Payloads(ext, n, share)
    ensures InnerLengths(ext, n) && FieldAt(ext, 40 + n) == 18 && FieldAt(ext, 60 + n) == 0x0201
    ensures Holds(ext, 87 + n, share) && FieldAt(ext, 107 + n) == FieldAt(share, 20)
  {
    SplitHeld(ext, 81 + n, KEY_SHARE, share);
    assert ext[8 + 0] == [0][0] && ext[75 + n + 0] == [1, 1][0];
    assert ext[22 + n + 0] == GROUPS[0] && ext[22 + n + 1] == GROUPS[1];
    assert ext[34 + n + 0] == POINT_FORMATS[0] && ext[66 + n + 0] == VERSIONS[0];
    assert ext[40 + n + 0] == ALGORITHMS[0] && ext[40 + n + 1] == ALGORITHMS[1];
    assert ext[40 + n + 20] == ALGORITHMS[20] && ext[40 + n + 21] == ALGORITHMS[21];
    assert ext[81 + n + 0] == KEY_SHARE[0] && ext[81 + n + 1] == KEY_SHARE[1];
    assert ext[81 + n + 4] == KEY_SHARE[4] && ext[81 + n + 5] == KEY_SHARE[5];
    assert ext[87 + n + 20] == share[20] && ext[87 + n + 21] == share[21];
  }

  /** Inside the payloads, too, every length equals what it covers but one: the list of
      `signature_algorithms` declares 18 bytes and carries 20. */
  lemma OneInnerLengthIsWrong(sni: Bytes, share: Bytes)
    requires |share| == 32 && |sni| <= 282
    ensures var ext := Extensions(sni, share); var n := |sni|;
      && InnerLengths(ext, n) && Holds(ext, 87 + n, share)
      && FieldAt(ext, 40 + n) == 18 && 62 + n - (42 + n) == 20 && KindAt(ext, 62 + n) == 43
  {
    HeadersInPlace(sni, share);
    InnerOf(Extensions(sni, share), |sni|, share);
  }

  /** Above 278 bytes of host name there is no padding extension: the block ends in 282 - n
      stray zero bytes, too few for the header of an extension. */
  lemma StrayZeros(sni: Bytes, share: Bytes)
    requires |share| == 32 && 278 < |sni| <= 282
    ensures var ext := Extensions(sni, share);
      |ext| == 119 + |sni| + (282 - |sni|) && Holds(ext, 119 + |sni|, Zeros(282 - |sni|)) && 282 - |sni| < 4
  {
    HeadersInPlace(sni, share);
  }

  // The positions a parser visits when it steps by declared lengths.
  function Positions(block: Bytes, pos: nat, steps: nat): seq<nat>
    decreases steps
  {
    if steps == 0 || pos + 4 > |block| then [] else [pos] + Positions(block, NextAt(block, pos), steps - 1)
  }

  lemma {:induction false} PositionsBeyond(block: Bytes, pos: nat, steps: nat, missed: nat)
    requires missed < pos
    ensures missed !in Positions(block, pos, steps)
    decreases steps
  {
    if steps > 0 && pos + 4 <= |block| {
      PositionsBeyond(block, NextAt(block, pos), steps - 1, missed);
    }
  }

  // A step over a known header.
  lemma PositionsStep(block: Bytes, at: nat, kind: nat, next: nat, steps: nat, missed: nat)
    requires Header(block, at, kind, next) && at != missed
    requires steps > 0 ==> missed !in Positions(block, next, steps - 1)
    ensures missed !in Positions(block, at, steps)
  {
  }

  // The chain of headers that leads over the missed position.
  lemma {:induction false} PositionsAlong(block: Bytes, ats: seq<nat>, steps: nat, missed: nat)
    requires |ats| > 0 && missed < ats[|ats| - 1] && missed !in ats
    requires forall i :: 0 <= i < |ats| - 1 ==> ats[i] + 4 <= |block| && NextAt(block, ats[i]) == ats[i + 1]
    ensures missed !in Positions(block, ats[0], steps)
    decreases |ats|
  {
    if |ats| == 1 {
      PositionsBeyond(block, ats[0], steps, missed);
    } else {
      if steps > 0 {
        PositionsAlong(block, ats[1..], steps - 1, missed);
      }
      PositionsStep(block, ats[0], KindAt(block, ats[0]), ats[1], steps, missed);
    }
  }

  // The header a parser finds inside `signature_algorithms`.
  lemma StrayHeader(ext: Bytes, n: nat, share: Bytes)
    requires |share| == 32 && InPlace(ext, n) && Payloads(ext, n, share)
    ensures Header(ext, 60 + n, 0x0201, 107 + n) && |ext| >= 119 + n && KindAt(ext, 107 + n) == FieldAt(share, 20)
  {
    InnerOf(ext, n, share);
    assert KindAt(ext, 62 + n) == FieldAt(ext, 62 + n) == 43;
  }

  lemma WalkOver(ext: Bytes, n: nat, steps: nat)
    requires InPlace(ext, n) && Header(ext, 60 + n, 0x0201, 107 + n)
    ensures 62 + n !in Positions(ext, 0, steps)
  {
    PositionsAlong(ext, [0, 4, 9, 18 + n, 30 + n, 36 + n, 60 + n, 107 + n], steps, 62 + n);
  }

  /** The consequence: a parser that trusts the declared lengths meets type 0x0201 two bytes
      before supported_versions, takes that extension's type for its length, and goes on
      inside the key share: however far it walks, it never stands at supported_versions.
      What it meets at 107 + n is up to the random share. */
  lemma WalkLosesSupportedVersions(sni: Bytes, share: Bytes, steps: nat)
    requires |share| == 32 && |sni| <= 282
    ensures var ext := Extensions(sni, share); var n := |sni|;
      && |ext| >= 119 + n && KindAt(ext, 62 + n) == 43 && 62 + n !in Positions(ext, 0, steps)
      && Header(ext, 36 + n, 13, 60 + n) && Header(ext, 60 + n, 0x0201, 107 + n)
      && KindAt(ext, 107 + n) == FieldAt(share, 20)
  {
    HeadersInPlace(sni, share);
    StrayHeader(Extensions(sni, share), |sni|, share);
    WalkOver(Extensions(sni, share), |sni|, steps);
  }

  // ---- the server's check ----

  // The proxy zeroes the random field, recomputes the MAC and XORs it with what was sent.
  function ServerUnmasks(c: Crypto, key: Bytes, hello: Bytes): (r: Bytes)
    requires |hello| >= RANDOM_END
    ensures |r| == 32
  {
    Xor(c.hmac(key, hello[..11] + Zeros(32) + hello[43..]), hello[11..43])
  }

  lemma {:induction false} XorBitsSelf(a: nat, k: nat)
    ensures XorBits(a, a, k) == 0
  {
    if k > 0 {
      XorBitsSelf(a / 2, k - 1);
    }
  }

  lemma ZeroRandom(sessionId: Bytes, sni: Bytes, share: Bytes)
    requires |sessionId| == 32 && |share| == 32 && |sni| <= 282
    ensures ZeroedHello(sessionId, sni, share).value[RANDOM_OFFSET..RANDOM_END] == Zeros(32)
  {
    assert HelloPrefix(sessionId)[RANDOM_OFFSET..RANDOM_END] == Zeros(32);
  }

  lemma Unmask(digest: Digest, stamp: Bytes, random: Bytes)
    requires |stamp| == 4 && random == digest[..28] + Xor(digest[28..], stamp)
    ensures Xor(digest, random) == Zeros(28) + stamp
  {
    forall i | 0 <= i < 32
      ensures XorByte(digest[i], random[i]) == (Zeros(28) + stamp)[i]
    {
      if i < 28 {
        XorBitsSelf(digest[i], 8);
      } else {
        assert random[i] == XorByte(digest[i], stamp[i - 28]);
        XorByteCancel(stamp[i - 28], digest[i]);
        XorBitsCommute(stamp[i - 28], digest[i], 8);
      }
    }
  }

  // Filling in the random field and zeroing it again.
  lemma Restore(zeroed: Bytes, random: Bytes)
    requires |zeroed| >= RANDOM_END && |random| == 32 && zeroed[RANDOM_OFFSET..RANDOM_END] == Zeros(32)
    ensures var sent := WithRandom(zeroed, random);
      && WithRandom(sent, Zeros(32)) == zeroed
      && sent[RANDOM_OFFSET..RANDOM_END] == random
      && sent[RANDOM_END..] == zeroed[RANDOM_END..]
      && sent[..RANDOM_OFFSET] == zeroed[..RANDOM_OFFSET]
  {
    var front, back := zeroed[..RANDOM_OFFSET], zeroed[RANDOM_END..];
    assert zeroed == front + Zeros(32) + back;
    PutInPlace(front, random, back);
  }

  lemma PutInPlace(front: Bytes, random: Bytes, back: Bytes)
    requires |front| == RANDOM_OFFSET && |random| == 32
    ensures var sent := front + random + back;
      && sent[..RANDOM_OFFSET] == front && sent[RANDOM_OFFSET..RANDOM_END] == random && sent[RANDOM_END..] == back
  {
  }

  /** A server that knows the key recovers 28 zero bytes and the client's clock. */
  lemma ServerRecoversClock(c: Crypto, key: Bytes, sessionId: Bytes, sni: Bytes, share: Bytes, clock: nat)
    requires |sessionId| == 32 && |share| == 32 && |sni| <= 282 && clock < 0x1_0000_0000
    ensures var zeroed := ZeroedHello(sessionId, sni, share).value;
      var seen := ServerUnmasks(c, key, WithRandom(zeroed, HelloRandom(c, key, zeroed, clock)));
      && seen[..28] == Zeros(28)
      && FromLittleEndian(seen[28..]) == clock
  {
    var zeroed := ZeroedHello(sessionId, sni, share).value;
    var random := HelloRandom(c, key, zeroed, clock);
    var sent := WithRandom(zeroed, random);
    ZeroRandom(sessionId, sni, share);
    Restore(zeroed, random);
    Unmask(c.hmac(key, zeroed), LittleEndian(clock, 4), random);
    LittleEndian4RoundTrip(clock);
  }
}
