/** Reading and checking the welcome packet with which the mtg proxy answers a
    fake-TLS ClientHello. */
module Welcome {
  import opened Wrappers
  import opened Bytes
  import opened Sequences
  import opened TlsRecords
  import opened FakeTls

  const MAX_TOTAL := 16384
  const RECORD_TYPES: seq<Byte> := [0x16, 0x14, 0x17]
  const SID_OFFSET := 43

  datatype WelcomeError =
    | TruncatedRecord(idx: nat)
    | HeaderTimeout(idx: nat)
    | BadType(idx: nat, kind: Byte)
    | BadVersion(idx: nat)
    | ZeroLen(idx: nat)
    | Oversize(idx: nat, len: nat)
    | ShortBody(idx: nat)
    | PayloadTimeout(idx: nat)
    | TooShort
    | NotServerHello
    | TruncatedPreSid
    | BadSidLen(len: nat)
    | TruncatedInSid
    | SessionIdMismatch
    | HmacMismatch

  // ---- reading ----

  // One record, header included, when `total` bytes have been accumulated before it.
  function ReadOne(src: Source, idx: nat, kind: Byte, total: nat): (r: (Result<Bytes, WelcomeError>, Source))
    ensures r.0.Ok? ==> total + |r.0.value| <= MAX_TOTAL && r.0.value + r.1.data == src.data
    ensures r.1.end == src.end
  {
    var (header, src1) := ReadRaw(src, HEADER_LEN);
    match header
    case Err(Incomplete) => (Err(TruncatedRecord(idx)), src1)
    case Err(TimedOut) => (Err(HeaderTimeout(idx)), src1)
    case Ok(h) =>
      if h[0] != kind then (Err(BadType(idx, h[0])), src1)
      else if h[1..3] != [3, 3] then (Err(BadVersion(idx)), src1)
      else if RecordLen(h) == 0 then (Err(ZeroLen(idx)), src1)
      else if total + HEADER_LEN + RecordLen(h) > MAX_TOTAL then (Err(Oversize(idx, RecordLen(h))), src1)
      else
        var (body, src2) := ReadRaw(src1, RecordLen(h));
        match body
        case Err(Incomplete) => (Err(ShortBody(idx)), src2)
        case Err(TimedOut) => (Err(PayloadTimeout(idx)), src2)
        case Ok(b) =>
          assert h + b + src2.data == src.data;
          (Ok(h + b), src2)
  }

  function ReadFrom(src: Source, idx: nat, packet: Bytes): (r: (Result<Bytes, WelcomeError>, Source))
    requires idx <= 3
    decreases 3 - idx
  {
    if idx == 3 then (Ok(packet), src)
    else
      var (record, src') := ReadOne(src, idx, RECORD_TYPES[idx], |packet|);
      if record.Err? then (Err(record.error), src')
      else ReadFrom(src', idx + 1, packet + record.value)
  }

  method ReadWelcome(reader: StreamReader) returns (r: Result<Bytes, WelcomeError>)
    modifies reader
    ensures (r, reader.View()) == ReadFrom(old(reader.View()), 0, [])
    ensures r.Ok? ==> |r.value| <= MAX_TOTAL
  {
    var packet: Bytes := [];
    for idx := 0 to 3
      invariant ReadFrom(reader.View(), idx, packet) == ReadFrom(old(reader.View()), 0, [])
      invariant |packet| <= MAX_TOTAL
    {
      var record := ReadOneRecord(reader, idx, RECORD_TYPES[idx], |packet|);
      if record.Err? {
        return Err(record.error);
      }
      packet := packet + record.value;
    }
    r := Ok(packet);
  }

  method ReadOneRecord(reader: StreamReader, idx: nat, kind: Byte, total: nat) returns (r: Result<Bytes, WelcomeError>)
    modifies reader
    ensures (r, reader.View()) == ReadOne(old(reader.View()), idx, kind, total)
  {
    var header := reader.ReadExactly(HEADER_LEN);
    if header.Err? {
      return Err(if header.error == Incomplete then TruncatedRecord(idx) else HeaderTimeout(idx));
    }
    var h := header.value;
    if h[0] != kind {
      return Err(BadType(idx, h[0]));
    }
    if h[1..3] != [3, 3] {
      return Err(BadVersion(idx));
    }
    var len := RecordLen(h);
    if len == 0 {
      return Err(ZeroLen(idx));
    }
    if total + HEADER_LEN + len > MAX_TOTAL {
      return Err(Oversize(idx, len));
    }
    var body := reader.ReadExactly(len);
    if body.Err? {
      return Err(if body.error == Incomplete then ShortBody(idx) else PayloadTimeout(idx));
    }
    r := Ok(h + body.value);
  }

  /** On any stream: a packet that is read is exactly the bytes consumed, at most
      16 KiB of them. */
  lemma {:induction false} ReadConsumesExactly(src: Source, idx: nat, packet: Bytes)
    requires idx <= 3 && |packet| <= MAX_TOTAL
    ensures var (r, src') := ReadFrom(src, idx, packet);
      r.Ok? ==> |r.value| <= MAX_TOTAL && r.value + src'.data == packet + src.data
    decreases 3 - idx
  {
    if idx < 3 {
      var (record, src') := ReadOne(src, idx, RECORD_TYPES[idx], |packet|);
      if record.Ok? {
        ReadConsumesExactly(src', idx + 1, packet + record.value);
        Regroup(packet, record.value, src'.data);
      }
    }
  }

  // ---- an honest packet ----

  function Record(kind: Byte, payload: Bytes): (s: Bytes)
    requires |payload| < 0x1_0000
    ensures |s| == HEADER_LEN + |payload|
  {
    [kind, 3, 3] + U16(|payload|) + payload
  }

  function Packet(hello: Bytes, change: Bytes, noise: Bytes): Bytes
    requires |hello| < 0x1_0000 && |change| < 0x1_0000 && |noise| < 0x1_0000
  {
    Record(0x16, hello) + Record(0x14, change) + Record(0x17, noise)
  }

  lemma ReadsOneRecord(payload: Bytes, tail: Bytes, end: StreamEnd, idx: nat, kind: Byte, total: nat)
    requires 1 <= |payload| < 0x1_0000 && total + HEADER_LEN + |payload| <= MAX_TOTAL
    ensures ReadOne(Source(Record(kind, payload) + tail, end), idx, kind, total)
         == (Ok(Record(kind, payload)), Source(tail, end))
  {
    var data := Record(kind, payload) + tail;
    var header := [kind, 3, 3] + U16(|payload|);
    assert data == header + (payload + tail);
    assert data[..HEADER_LEN] == header && data[HEADER_LEN..] == payload + tail;
    assert header[1..3] == [3, 3] && header[3..5] == U16(|payload|);
    assert (payload + tail)[..|payload|] == payload && (payload + tail)[|payload|..] == tail;
  }

  lemma ReadFromRecord(payload: Bytes, tail: Bytes, end: StreamEnd, idx: nat, packet: Bytes)
    requires idx < 3 && 1 <= |payload| < 0x1_0000 && |packet| + HEADER_LEN + |payload| <= MAX_TOTAL
    ensures ReadFrom(Source(Record(RECORD_TYPES[idx], payload) + tail, end), idx, packet)
         == ReadFrom(Source(tail, end), idx + 1, packet + Record(RECORD_TYPES[idx], payload))
  {
    ReadsOneRecord(payload, tail, end, idx, RECORD_TYPES[idx], |packet|);
  }

  /** Every three-record reply that fits 16 KiB is read whole, and not one byte of
      what follows it is touched. */
  lemma ReadsHonestPacket(hello: Bytes, change: Bytes, noise: Bytes, tail: Bytes, end: StreamEnd)
    requires 1 <= |hello| && 1 <= |change| && 1 <= |noise|
    requires 15 + |hello| + |change| + |noise| <= MAX_TOTAL
    ensures ReadFrom(Source(Packet(hello, change, noise) + tail, end), 0, [])
         == (Ok(Packet(hello, change, noise)), Source(tail, end))
  {
    var a, b, c := Record(0x16, hello), Record(0x14, change), Record(0x17, noise);
    Regroup(a, b, c);
    Regroup(a, b + c, tail);
    Regroup(b, c, tail);
    assert [] + a == a;
    ReadFromRecord(hello, b + (c + tail), end, 0, []);
    ReadFromRecord(change, c + tail, end, 1, a);
    ReadFromRecord(noise, tail, end, 2, a + b);
  }

  // Three records of the expected types and version, none empty, in at most 16 KiB.
  ghost predicate ThreeRecords(packet: Bytes)
  {
    && |packet| <= 16384
    && exists a: Bytes, b: Bytes, c: Bytes :: ThreeParts(packet, a, b, c)
  }

  ghost predicate ThreeParts(packet: Bytes, a: Bytes, b: Bytes, c: Bytes)
  {
    && 1 <= |a| < 0x1_0000 && 1 <= |b| < 0x1_0000 && 1 <= |c| < 0x1_0000
    && packet == ([0x16, 3, 3] + U16(|a|) + a) + ([0x14, 3, 3] + U16(|b|) + b) + ([0x17, 3, 3] + U16(|c|) + c)
  }

  lemma OneIsRecord(src: Source, idx: nat, kind: Byte, total: nat)
    requires ReadOne(src, idx, kind, total).0.Ok?
    ensures var record := ReadOne(src, idx, kind, total).0.value;
      exists p: Bytes :: 1 <= |p| < 0x1_0000 && record == [kind, 3, 3] + U16(|p|) + p
  {
    var data, record := src.data, ReadOne(src, idx, kind, total).0.value;
    HeaderBytes(data);
    var h := data[..5];
    var p := record[5..];
    assert h[1..3] == [3, 3] && h[3..5] == U16(|p|) && |p| == RecordLen(h);
    assert h == [h[0]] + h[1..3] + h[3..5];
    assert record == h + p;
  }

  lemma ReadIsThreeRecords(src: Source)
    requires ReadFrom(src, 0, []).0.Ok?
    ensures ThreeRecords(ReadFrom(src, 0, []).0.value)
  {
    ReadConsumesExactly(src, 0, []);
    var (r0, s1) := ReadOne(src, 0, 0x16, 0);
    var p0 := [] + r0.value;
    var (r1, s2) := ReadOne(s1, 1, 0x14, |p0|);
    var p1 := p0 + r1.value;
    var (r2, s3) := ReadOne(s2, 2, 0x17, |p1|);
    assert p0 == r0.value && ReadFrom(src, 0, []) == (Ok(p1 + r2.value), s3);
    OneIsRecord(src, 0, 0x16, 0);
    OneIsRecord(s1, 1, 0x14, |p0|);
    OneIsRecord(s2, 2, 0x17, |p1|);
    var a: Bytes :| 1 <= |a| < 0x1_0000 && r0.value == [0x16, 3, 3] + U16(|a|) + a;
    var b: Bytes :| 1 <= |b| < 0x1_0000 && r1.value == [0x14, 3, 3] + U16(|b|) + b;
    var c: Bytes :| 1 <= |c| < 0x1_0000 && r2.value == [0x17, 3, 3] + U16(|c|) + c;
    assert ThreeParts(p1 + r2.value, a, b, c);
  }

  /** Exactly what is read: a packet that is the next thing on the stream and consists of three
      records of the expected types and version. */
  lemma ReadsExactly(src: Source, packet: Bytes, left: Source)
    ensures ReadFrom(src, 0, []) == (Ok(packet), left) <==>
              left.end == src.end && src.data == packet + left.data && ThreeRecords(packet)
  {
    if ReadFrom(src, 0, []) == (Ok(packet), left) {
      ReadIsThreeRecords(src);
      ReadConsumesExactly(src, 0, []);
      EndKept(src, 0, []);
      assert [] + src.data == src.data;
    }
    if left.end == src.end && src.data == packet + left.data && ThreeRecords(packet) {
      var a, b, c :| ThreeParts(packet, a, b, c);
      ReadsHonestPacket(a, b, c, left.data, src.end);
    }
  }

  lemma {:induction false} EndKept(src: Source, idx: nat, packet: Bytes)
    requires idx <= 3
    ensures ReadFrom(src, idx, packet).1.end == src.end
    decreases 3 - idx
  {
    if idx < 3 {
      var (record, src') := ReadOne(src, idx, RECORD_TYPES[idx], |packet|);
      if record.Ok? {
        EndKept(src', idx + 1, packet + record.value);
      }
    }
  }

  // ---- validation ----

  function Validate(c: Crypto, key: Bytes, sessionId: Bytes, clientRandom: Bytes, packet: Bytes): Option<WelcomeError>
  {
    if |packet| < RANDOM_END then Some(TooShort)
    else if packet[5] != 2 then Some(NotServerHello)
    else if |packet| < SID_OFFSET + 1 then Some(TruncatedPreSid)
    else
      var sidLen := packet[SID_OFFSET] as int;
      if sidLen != |sessionId| then Some(BadSidLen(sidLen))
      else if |packet| < SID_OFFSET + 1 + sidLen then Some(TruncatedInSid)
      else if packet[SID_OFFSET + 1..SID_OFFSET + 1 + sidLen] != sessionId then Some(SessionIdMismatch)
      else if c.hmac(key, clientRandom + WithRandom(packet, Zeros(32))) != packet[RANDOM_OFFSET..RANDOM_END]
      then Some(HmacMismatch)
      else None
  }

  // What a proxy that holds the key sends: its random field is the MAC over the
  // client's random and the packet with that field zeroed.
  function ServerPacket(c: Crypto, key: Bytes, clientRandom: Bytes, zeroed: Bytes): Bytes
    requires |zeroed| >= RANDOM_END
  {
    zeroed[..11] + c.hmac(key, clientRandom + zeroed) + zeroed[43..]
  }

  // The zeroed ServerHello record: type 2, any handshake header and version, the echoed session id.
  function ServerHello(header: Bytes, sessionId: Bytes, more: Bytes): Bytes
    requires |header| == 5 && |sessionId| == 32
  {
    [2] + header + Zeros(32) + [32] + sessionId + more
  }

  /** An accepted packet authenticates itself: it echoes the session id, and it is the
      packet a holder of the key computes for this client random. */
  lemma AcceptedIsServerPacket(c: Crypto, key: Bytes, sessionId: Bytes, clientRandom: Bytes, packet: Bytes)
    requires Validate(c, key, sessionId, clientRandom, packet) == None
    ensures |packet| >= SID_OFFSET + 1 + |sessionId|
    ensures packet[SID_OFFSET + 1..SID_OFFSET + 1 + |sessionId|] == sessionId
    ensures packet == ServerPacket(c, key, clientRandom, WithRandom(packet, Zeros(32)))
  {
    var zeroed := WithRandom(packet, Zeros(32));
    assert zeroed[..RANDOM_OFFSET] == packet[..RANDOM_OFFSET];
    assert zeroed[RANDOM_END..] == packet[RANDOM_END..];
    assert packet == packet[..RANDOM_OFFSET] + packet[RANDOM_OFFSET..RANDOM_END] + packet[RANDOM_END..];
  }

  /** Exactly which packets are accepted: a ServerHello that echoes the session id and whose
      random field is the MAC over the client's random and the packet with that field zeroed. */
  lemma AcceptedExactly(c: Crypto, key: Bytes, sessionId: Bytes, clientRandom: Bytes, packet: Bytes)
    ensures Validate(c, key, sessionId, clientRandom, packet) == None <==>
              && |packet| >= 44 + |sessionId|
              && packet[5] == 2
              && packet[43] as int == |sessionId| && packet[44..44 + |sessionId|] == sessionId
              && packet[11..43] == c.hmac(key, clientRandom + (packet[..11] + Zeros(32) + packet[43..]))
  {
  }

  lemma ZeroedHelloRecord(header: Bytes, sessionId: Bytes, more: Bytes, rest: Bytes)
    requires |header| == 5 && |sessionId| == 32 && |more| < 0xFF00
    ensures var zeroed := Record(0x16, ServerHello(header, sessionId, more)) + rest;
      && zeroed[5] == 2
      && zeroed[RANDOM_OFFSET..RANDOM_END] == Zeros(32)
      && zeroed[SID_OFFSET] == 32
      && zeroed[SID_OFFSET + 1..SID_OFFSET + 33] == sessionId
  {
    var hello := ServerHello(header, sessionId, more);
    assert hello[0] == 2 && hello[6..38] == Zeros(32) && hello[38] == 32 && hello[39..71] == sessionId;
    var zeroed := Record(0x16, hello) + rest;
    assert zeroed[5..5 + |hello|] == hello;
    assert zeroed[RANDOM_OFFSET..RANDOM_END] == hello[6..38];
    assert zeroed[SID_OFFSET + 1..SID_OFFSET + 33] == hello[39..71];
  }

  lemma HonestValidates(c: Crypto, key: Bytes, sessionId: Bytes, clientRandom: Bytes, zeroed: Bytes)
    requires |sessionId| == 32 && |zeroed| >= SID_OFFSET + 33
    requires zeroed[5] == 2 && zeroed[RANDOM_OFFSET..RANDOM_END] == Zeros(32)
    requires zeroed[SID_OFFSET] == 32 && zeroed[SID_OFFSET + 1..SID_OFFSET + 33] == sessionId
    ensures Validate(c, key, sessionId, clientRandom, ServerPacket(c, key, clientRandom, zeroed)) == None
  {
    var random := c.hmac(key, clientRandom + zeroed);
    var sent := WithRandom(zeroed, random);
    Restore(zeroed, random);
    assert sent[5] == sent[..RANDOM_OFFSET][5] == zeroed[5];
    assert sent[SID_OFFSET] == sent[RANDOM_END..][0] == zeroed[SID_OFFSET];
    assert sent[SID_OFFSET + 1..SID_OFFSET + 33] == sent[RANDOM_END..][1..33]
        == zeroed[SID_OFFSET + 1..SID_OFFSET + 33];
  }

  lemma HonestSent(header: Bytes, sessionId: Bytes, more: Bytes, change: Bytes, noise: Bytes, random: Bytes)
    requires |header| == 5 && |sessionId| == 32 && |random| == 32
    requires |more| < 0xFF00 && |change| < 0x1_0000 && |noise| < 0x1_0000
    ensures WithRandom(Packet(ServerHello(header, sessionId, more), change, noise), random)
         == Packet([2] + header + random + [32] + sessionId + more, change, noise)
  {
    var b, c := Record(0x14, change), Record(0x17, noise);
    Regroup(Record(0x16, ServerHello(header, sessionId, more)), b, c);
    Regroup(Record(0x16, [2] + header + random + [32] + sessionId + more), b, c);
    RandomInPlace(header, sessionId, more, random, b + c);
  }

  /** Reading and validating accepts every honest reply, whatever its contents and
      whatever follows it on the stream. */
  lemma HonestWelcomeAccepted(c: Crypto, key: Bytes, sessionId: Bytes, clientRandom: Bytes,
                              header: Bytes, more: Bytes, change: Bytes, noise: Bytes, tail: Bytes, end: StreamEnd)
    requires |header| == 5 && |sessionId| == 32 && 1 <= |change| && 1 <= |noise|
    requires 15 + 71 + |more| + |change| + |noise| <= MAX_TOTAL
    ensures var sent := ServerPacket(c, key, clientRandom, Packet(ServerHello(header, sessionId, more), change, noise));
      && ReadFrom(Source(sent + tail, end), 0, []) == (Ok(sent), Source(tail, end))
      && Validate(c, key, sessionId, clientRandom, sent) == None
  {
    var zeroed := Packet(ServerHello(header, sessionId, more), change, noise);
    var random := c.hmac(key, clientRandom + zeroed);
    Regroup(Record(0x16, ServerHello(header, sessionId, more)), Record(0x14, change), Record(0x17, noise));
    ZeroedHelloRecord(header, sessionId, more, Record(0x14, change) + Record(0x17, noise));
    HonestValidates(c, key, sessionId, clientRandom, zeroed);
    HonestSent(header, sessionId, more, change, noise, random);
    ReadsHonestPacket([2] + header + random + [32] + sessionId + more, change, noise, tail, end);
  }

  lemma RandomInPlace(header: Bytes, sessionId: Bytes, more: Bytes, random: Bytes, rest: Bytes)
    requires |header| == 5 && |sessionId| == 32 && |random| == 32 && |more| < 0xFF00
    ensures WithRandom(Record(0x16, ServerHello(header, sessionId, more)) + rest, random)
         == Record(0x16, [2] + header + random + [32] + sessionId + more) + rest
  {
    var front := [0x16, 3, 3] + U16(71 + |more|) + [2] + header;
    var back := [32] + sessionId + more;
    assert Record(0x16, ServerHello(header, sessionId, more)) + rest == front + Zeros(32) + (back + rest);
    assert Record(0x16, [2] + header + random + [32] + sessionId + more) + rest == front + random + (back + rest);
  }
}
