/** The obfuscated2 exchange of a MTProto client with a proxy: the 64-byte init
    frame, the encrypted req_pq_multi request, and the resPQ answer. */
module Obfuscated2 {
  import opened Wrappers
  import opened Bytes
  import opened Sequences
  import opened TlsRecords
  import opened Models

  const DRAW_LEN := 56
  const INIT_LEN := 64
  const TAG: Bytes := [0xdd, 0xdd, 0xdd, 0xdd]
  const REQ_PQ_MULTI := 0xBE7E8EF1
  const RES_PQ := 0x05162463
  const FORBIDDEN_FIRST_INTS :=
    {0x44414548, 0x54534F50, 0x20544547, 0x4954504F, 0xEEEEEEEE, 0xDDDDDDDD, 0x02010316}

  // ---- the AES-CTR contexts ----

  class CtrCipher {
    const crypto: Crypto
    const key: Digest
    const iv: Bytes
    var pos: nat

    constructor (crypto: Crypto, key: Digest, iv: Bytes)
      ensures this.crypto == crypto && this.key == key && this.iv == iv && pos == 0
    {
      this.crypto, this.key, this.iv, this.pos := crypto, key, iv, 0;
    }

    method Update(data: Bytes) returns (out: Bytes)
      modifies this
      ensures out == Crypt(crypto, key, iv, old(pos), data)
      ensures pos == old(pos) + |data|
    {
      out := Crypt(crypto, key, iv, pos, data);
      pos := pos + |data|;
    }
  }

  // ---- the init frame ----

  predicate Acceptable(draw: Bytes)
  {
    && |draw| == DRAW_LEN
    && draw[0] != 0xEF
    && FromLittleEndian(draw[..4]) !in FORBIDDEN_FIRST_INTS
    && FromLittleEndian(draw[4..8]) != 0
  }

  // The random draws are an input; the loop keeps the first one that is acceptable.
  function FirstAcceptable(draws: seq<Bytes>): (d: Bytes)
    requires exists i :: 0 <= i < |draws| && Acceptable(draws[i])
    ensures Acceptable(d) && d in draws
  {
    if Acceptable(draws[0]) then draws[0]
    else
      assert exists i :: 0 <= i < |draws[1..]| && Acceptable(draws[1..][i]) by {
        var i :| 0 <= i < |draws| && Acceptable(draws[i]);
        assert draws[1..][i - 1] == draws[i];
      }
      FirstAcceptable(draws[1..])
  }

  datatype Keys = Keys(key: Digest, iv: Bytes)

  // `material` is 48 bytes: 32 of key, 16 of initial counter block.
  function Derive(c: Crypto, material: Bytes, secret: Bytes): Keys
    requires |material| == 48
  {
    Keys(c.sha256(material[..32] + secret), material[32..])
  }

  function SendKeys(c: Crypto, secret: Bytes, draw: Bytes): Keys
    requires |draw| == DRAW_LEN
  {
    Derive(c, draw[8..], secret)
  }

  function RecvKeys(c: Crypto, secret: Bytes, draw: Bytes): Keys
    requires |draw| == DRAW_LEN
  {
    Derive(c, Reverse(draw[8..]), secret)
  }

  function InitFrame(c: Crypto, secret: Bytes, draw: Bytes, filler: Bytes): (frame: Bytes)
    requires |draw| == DRAW_LEN && |filler| == 2
    ensures |frame| == INIT_LEN
  {
    var k := SendKeys(c, secret, draw);
    draw + Crypt(c, k.key, k.iv, 56, TAG) + Crypt(c, k.key, k.iv, 60, [1, 0]) + filler
  }

  method PickDraw(draws: seq<Bytes>) returns (draw: Bytes)
    requires exists i :: 0 <= i < |draws| && Acceptable(draws[i])
    ensures draw == FirstAcceptable(draws)
  {
    var rest := draws;
    while !Acceptable(rest[0])
      invariant exists i :: 0 <= i < |rest| && Acceptable(rest[i])
      invariant FirstAcceptable(rest) == FirstAcceptable(draws)
      decreases |rest|
    {
      var i :| 0 <= i < |rest| && Acceptable(rest[i]);
      assert rest[1..][i - 1] == rest[i];
      rest := rest[1..];
    }
    draw := rest[0];
  }

  // Writes the encrypted tag, data centre and filler into bytes 56..64.
  method PatchTail(buf: array<Byte>, keystream: Bytes, filler: Bytes)
    requires buf.Length == INIT_LEN == |keystream| && |filler| == 2
    modifies buf
    ensures buf[..56] == old(buf[..56])
    ensures buf[56..60] == Xor(TAG, keystream[56..60])
    ensures buf[60..62] == Xor([1, 0], keystream[60..62])
    ensures buf[62..] == filler
  {
    for i := 0 to 4
      invariant buf[..56] == old(buf[..56])
      invariant forall j :: 0 <= j < i ==> buf[56 + j] == XorByte(TAG[j], keystream[56 + j])
    {
      buf[56 + i] := XorByte(TAG[i], keystream[56 + i]);
    }
    assert buf[56..60] == Xor(TAG, keystream[56..60]);
    var dcId: Bytes := LittleEndian(1, 2);
    assert dcId == [1, 0];
    for i := 0 to 2
      invariant buf[..56] == old(buf[..56])
      invariant buf[56..60] == Xor(TAG, keystream[56..60])
      invariant forall j :: 0 <= j < i ==> buf[60 + j] == XorByte(dcId[j], keystream[60 + j])
    {
      buf[60 + i] := XorByte(dcId[i], keystream[60 + i]);
    }
    assert buf[60..62] == Xor([1, 0], keystream[60..62]);
    buf[62], buf[63] := filler[0], filler[1];
  }

  method FrameBytes(c: Crypto, k: Keys, draw: Bytes, filler: Bytes) returns (init: Bytes)
    requires |draw| == DRAW_LEN && |filler| == 2
    ensures init == draw + Crypt(c, k.key, k.iv, 56, TAG) + Crypt(c, k.key, k.iv, 60, [1, 0]) + filler
  {
    var oneShot := new CtrCipher(c, k.key, k.iv);
    var keystream := oneShot.Update(Zeros(INIT_LEN));
    var buf := new Byte[INIT_LEN](i => if 0 <= i < DRAW_LEN then draw[i] else 0);
    assert buf[..56] == draw;
    PatchTail(buf, keystream, filler);
    XorWithKeystream(c, k.key, k.iv, INIT_LEN, 56, TAG);
    XorWithKeystream(c, k.key, k.iv, INIT_LEN, 60, [1, 0]);
    init := buf[..];
    FrameOfParts(init, draw, Crypt(c, k.key, k.iv, 56, TAG), Crypt(c, k.key, k.iv, 60, [1, 0]), filler);
  }

  lemma FrameOfParts(s: Bytes, draw: Bytes, tag: Bytes, dc: Bytes, filler: Bytes)
    requires |s| == INIT_LEN && s[..56] == draw && s[56..60] == tag && s[60..62] == dc && s[62..] == filler
    ensures s == draw + tag + dc + filler
  {}

  method InitFor(c: Crypto, secret: Bytes, draw: Bytes, filler: Bytes)
    returns (init: Bytes, send: CtrCipher, recv: CtrCipher)
    requires |draw| == DRAW_LEN && |filler| == 2
    ensures init == InitFrame(c, secret, draw, filler)
    ensures fresh(send) && fresh(recv) && send != recv
    ensures send.crypto == c && recv.crypto == c
    ensures Keys(send.key, send.iv) == SendKeys(c, secret, draw) && send.pos == INIT_LEN
    ensures Keys(recv.key, recv.iv) == RecvKeys(c, secret, draw) && recv.pos == 0
  {
    var s := SendKeys(c, secret, draw);
    var r := RecvKeys(c, secret, draw);
    send := new CtrCipher(c, s.key, s.iv);
    recv := new CtrCipher(c, r.key, r.iv);
    init := FrameBytes(c, s, draw, filler);
    var _ := send.Update(Zeros(INIT_LEN));
  }

  method BuildInit(c: Crypto, secret: Bytes, draws: seq<Bytes>, filler: Bytes)
    returns (init: Bytes, send: CtrCipher, recv: CtrCipher)
    requires exists i :: 0 <= i < |draws| && Acceptable(draws[i])
    requires |filler| == 2
    ensures init == InitFrame(c, secret, FirstAcceptable(draws), filler)
    ensures fresh(send) && fresh(recv) && send != recv
    ensures send.crypto == c && recv.crypto == c
    ensures Keys(send.key, send.iv) == SendKeys(c, secret, FirstAcceptable(draws)) && send.pos == INIT_LEN
    ensures Keys(recv.key, recv.iv) == RecvKeys(c, secret, FirstAcceptable(draws)) && recv.pos == 0
  {
    var draw := PickDraw(draws);
    init, send, recv := InitFor(c, secret, draw, filler);
  }

  // Encrypting zeros exposes the keystream, so XOR with its bytes is encryption in place.
  lemma XorWithKeystream(c: Crypto, key: Digest, iv: Bytes, n: nat, pos: nat, data: Bytes)
    requires pos + |data| <= n
    ensures Xor(data, Crypt(c, key, iv, 0, Zeros(n))[pos..pos + |data|]) == Crypt(c, key, iv, pos, data)
  {
    var ks := Crypt(c, key, iv, 0, Zeros(n));
    forall i | 0 <= i < |data|
      ensures Xor(data, ks[pos..pos + |data|])[i] == Crypt(c, key, iv, pos, data)[i]
    {
      assert ks[pos..pos + |data|][i] == ks[pos + i];
      assert Zeros(n)[pos + i] == 0;
      XorBitsCommute(0, c.ctr(key, iv, pos + i), 8);
      XorByteZero(c.ctr(key, iv, pos + i));
    }
  }

  lemma {:induction false} XorBitsZero(a: nat, k: nat)
    requires a < Pow2(k)
    ensures XorBits(a, 0, k) == a
  {
    if k > 0 {
      XorBitsZero(a / 2, k - 1);
    }
  }

  lemma XorByteZero(a: Byte)
    ensures XorByte(a, 0) == a
  {
    Pow2Of8();
    XorBitsZero(a, 8);
  }

  // ---- the request ----

  function ReqPqInner(msgId: Bytes, nonce: Bytes): (s: Bytes)
    requires |msgId| == 8 && |nonce| == 16
    ensures |s| == 40
  {
    Zeros(8) + msgId + LittleEndian(20, 4) + LittleEndian(REQ_PQ_MULTI, 4) + nonce
  }

  function Padded(body: Bytes): Bytes
  {
    LittleEndian(|body|, 4) + body
  }

  function MsgId(ticks: nat): (id: Bytes)
    ensures |id| == 8
  {
    LittleEndian(ticks - ticks % 4, 8)
  }

  method BuildReqPq(nonce: Bytes, ticks: nat, pad: Bytes, send: CtrCipher) returns (frame: Bytes)
    requires |nonce| == 16 && |pad| < 16
    modifies send
    ensures frame == Crypt(send.crypto, send.key, send.iv, old(send.pos), Padded(ReqPqInner(MsgId(ticks), nonce) + pad))
    ensures send.pos == old(send.pos) + 44 + |pad|
  {
    var msgBody := LittleEndian(REQ_PQ_MULTI, 4) + nonce;
    var inner := Zeros(8) + MsgId(ticks) + LittleEndian(|msgBody|, 4) + msgBody;
    assert inner == ReqPqInner(MsgId(ticks), nonce);
    var plain := LittleEndian(|inner| + |pad|, 4) + inner + pad;
    assert plain == Padded(inner + pad);
    frame := send.Update(plain);
  }

  function ClientBytes(c: Crypto, secret: Bytes, draw: Bytes, filler: Bytes, ticks: nat, nonce: Bytes,
                       pad: Bytes): Bytes
    requires |draw| == DRAW_LEN && |filler| == 2 && |nonce| == 16 && |pad| < 16
  {
    var k := SendKeys(c, secret, draw);
    InitFrame(c, secret, draw, filler)
    + Crypt(c, k.key, k.iv, INIT_LEN, Padded(ReqPqInner(MsgId(ticks), nonce) + pad))
  }

  // ---- an honest proxy, which sees only the bytes the client sent ----

  datatype Request = Request(tag: Bytes, dc: nat, declared: nat, body: Bytes)

  // It derives its decryption key from bytes 8..40 of the frame and the secret, takes bytes
  // 40..56 for the counter block, decrypts the whole stream from counter 0, and reads the tag,
  // the data centre and the first packet.
  function ServerReads(c: Crypto, secret: Bytes, stream: Bytes): Request
    requires |stream| >= INIT_LEN + 4
  {
    var plain := Crypt(c, c.sha256(stream[8..40] + secret), stream[40..56], 0, stream);
    Request(plain[56..60], FromLittleEndian(plain[60..62]), FromLittleEndian(plain[64..68]), plain[68..])
  }

  // Its own stream uses the same bytes read backwards, and starts at counter 0.
  function ServerWrites(c: Crypto, secret: Bytes, stream: Bytes, answer: Bytes): Bytes
    requires |stream| >= INIT_LEN
  {
    Crypt(c, c.sha256(Reverse(stream[24..56]) + secret), Reverse(stream[8..24]), 0, answer)
  }

  function ResPqBody(msgId: Bytes, nonce: Bytes, rest: Bytes, padding: Bytes): Bytes
  {
    Zeros(8) + msgId + LittleEndian(20 + |rest|, 4) + (LittleEndian(RES_PQ, 4) + nonce + rest) + padding
  }

  // ---- reading the answer ----

  datatype Channel = Raw(src: Source) | Framed(inner: Inner)

  function Receive(ch: Channel, n: nat, body: bool): (Result<Bytes, Failure>, Channel)
  {
    match ch
    case Framed(inner) =>
      var (r, inner') := Deliver(inner, n);
      (r, Framed(inner'))
    case Raw(src) =>
      var (r, src') := ReadRaw(src, n);
      ((match r
        case Ok(b) => Ok(b)
        case Err(Incomplete) => Err(if body then TruncatedBody(n) else TruncatedLen)
        case Err(TimedOut) => Err(if body then BodyTimeout else LenTimeout)),
       Raw(src'))
  }

  function ValidateResPq(body: Bytes, nonce: Bytes): Option<Failure>
  {
    if |body| < 24 then Some(ResPqTruncated(|body|))
    else if body[..8] != Zeros(8) then Some(BadAuthKeyId)
    else
      var msgLen := FromLittleEndian(body[16..20]);
      if msgLen < 20 || 20 + msgLen > |body| then Some(BadMsgLen(msgLen))
      else
        var msg := body[20..20 + msgLen];
        if FromLittleEndian(msg[..4]) != RES_PQ then Some(BadTlId(FromLittleEndian(msg[..4])))
        else if msg[4..20] != nonce then Some(NonceMismatch)
        else None
  }

  // The outcome together with the ciphertext it was decided on.
  function Outcome(c: Crypto, k: Keys, nonce: Bytes, ch: Channel): (Option<Failure>, Bytes)
  {
    var (lenCt, ch') := Receive(ch, 4, false);
    if lenCt.Err? then (Some(lenCt.error), [])
    else
      var length := FromLittleEndian(Crypt(c, k.key, k.iv, 0, lenCt.value));
      if length < 24 || length > 4096 then (Some(BadOuterLen(length)), lenCt.value)
      else
        var (bodyCt, _) := Receive(ch', length, true);
        if bodyCt.Err? then (Some(bodyCt.error), lenCt.value)
        else (ValidateResPq(Crypt(c, k.key, k.iv, 4, bodyCt.value), nonce), lenCt.value + bodyCt.value)
  }

  method Exchange(c: Crypto, secret: Bytes, draws: seq<Bytes>, filler: Bytes, nonce: Bytes, ticks: nat, pad: Bytes,
                  reader: StreamReader, writeOk: bool, wrapped: bool)
    returns (onWire: Bytes, failure: Option<Failure>)
    requires exists i :: 0 <= i < |draws| && Acceptable(draws[i])
    requires |filler| == 2 && |nonce| == 16 && |pad| < 16
    modifies reader
    ensures var draw := FirstAcceptable(draws);
      var sent := ClientBytes(c, secret, draw, filler, ticks, nonce, pad);
      var ch := if wrapped then Framed(Inner([], old(reader.View()))) else Raw(old(reader.View()));
      && |sent| <= MAX_RECORD
      && onWire == (if wrapped then Frame(sent) else sent)
      && failure == if writeOk then Outcome(c, RecvKeys(c, secret, draw), nonce, ch).0 else Some(WriteFailed)
  {
    var init, send, recv := BuildInit(c, secret, draws, filler);
    var request := BuildReqPq(nonce, ticks, pad, send);
    var inner := init + request;
    onWire := if wrapped then [APP_DATA, 3, 3] + U16(|inner|) + inner else inner;
    if !writeOk {
      return onWire, Some(WriteFailed);
    }
    var tls := new TlsRecordReader(reader);
    var lenCt;
    if wrapped {
      var r, _ := tls.ReadInner(4);
      if r.Err? {
        return onWire, Some(r.error);
      }
      lenCt := r.value;
    } else {
      var r := reader.ReadExactly(4);
      if r.Err? {
        return onWire, Some(if r.error == Incomplete then TruncatedLen else LenTimeout);
      }
      lenCt := r.value;
    }
    var lenPt := recv.Update(lenCt);
    var length := FromLittleEndian(lenPt);
    if length < 24 || length > 4096 {
      return onWire, Some(BadOuterLen(length));
    }
    var bodyCt;
    if wrapped {
      var r, _ := tls.ReadInner(length);
      if r.Err? {
        return onWire, Some(r.error);
      }
      bodyCt := r.value;
    } else {
      var r := reader.ReadExactly(length);
      if r.Err? {
        return onWire, Some(if r.error == Incomplete then TruncatedBody(length) else BodyTimeout);
      }
      bodyCt := r.value;
    }
    assert |lenCt| == 4;
    var bodyPt := recv.Update(bodyCt);
    failure := ValidateResPq(bodyPt, nonce);
  }

  // ---- both ends agree ----

  // Ciphertext made for its place in the stream decrypts there.
  lemma SuffixAt(c: Crypto, k: Keys, front: Bytes, plain: Bytes, pos: nat, piece: Bytes)
    requires Crypt(c, k.key, k.iv, 0, front) == plain && |front| == pos
    ensures Crypt(c, k.key, k.iv, 0, front + Crypt(c, k.key, k.iv, pos, piece)) == plain + piece
  {
    CryptSuffix(c, k.key, k.iv, 0, front, piece);
  }

  // What the proxy's keystream makes of the client's bytes, piece by piece.
  lemma DecryptedStream(c: Crypto, k: Keys, draw: Bytes, filler: Bytes, packet: Bytes) returns (junk: Bytes,
                        fill: Bytes)
    requires |draw| == DRAW_LEN && |filler| == 2
    ensures |junk| == DRAW_LEN && |fill| == 2
    ensures Crypt(c, k.key, k.iv, 0, draw + Crypt(c, k.key, k.iv, 56, TAG) + Crypt(c, k.key, k.iv, 60, [1, 0]) + filler
                                     + Crypt(c, k.key, k.iv, 64, packet))
         == junk + TAG + [1, 0] + fill + packet
  {
    junk, fill := Crypt(c, k.key, k.iv, 0, draw), Crypt(c, k.key, k.iv, 62, filler);
    var front := draw + Crypt(c, k.key, k.iv, 56, TAG);
    SuffixAt(c, k, draw, junk, 56, TAG);
    var front' := front + Crypt(c, k.key, k.iv, 60, [1, 0]);
    SuffixAt(c, k, front, junk + TAG, 60, [1, 0]);
    CryptConcat(c, k.key, k.iv, 0, front', filler);
    SuffixAt(c, k, front' + filler, junk + TAG + [1, 0] + fill, 64, packet);
  }

  // The keys, in terms of the bytes on the wire.
  lemma KeysOfStream(c: Crypto, secret: Bytes, draw: Bytes, stream: Bytes)
    requires |draw| == DRAW_LEN && |stream| >= INIT_LEN && stream[..DRAW_LEN] == draw
    ensures SendKeys(c, secret, draw) == Keys(c.sha256(stream[8..40] + secret), stream[40..56])
    ensures RecvKeys(c, secret, draw) == Keys(c.sha256(Reverse(stream[24..56]) + secret), Reverse(stream[8..24]))
  {
    assert draw[8..][..32] == stream[8..40] && draw[8..][32..] == stream[40..56];
    assert Reverse(draw[8..])[..32] == Reverse(stream[24..56]);
    assert Reverse(draw[8..])[32..] == Reverse(stream[8..24]);
  }

  lemma DcIdIsOne()
    ensures FromLittleEndian([1, 0]) == 1
  {
    assert LittleEndian(1, 2) == [1, 0];
    Pow256Of2And4();
    LittleEndianRoundTrip(1, 2);
  }

  lemma ReadsOf(junk: Bytes, fill: Bytes, body: Bytes, plain: Bytes)
    requires |junk| == DRAW_LEN && |fill| == 2 && |body| < 0x1_0000_0000
    requires plain == junk + TAG + [1, 0] + fill + Padded(body)
    ensures plain[56..60] == TAG && plain[60..62] == [1, 0]
    ensures FromLittleEndian(plain[64..68]) == |body| && plain[68..] == body
  {
    assert plain[64..68] == LittleEndian(|body|, 4);
    LittleEndian4RoundTrip(|body|);
  }

  // The unencrypted message, field by field: no key, the clock with its last two bits cleared,
  // twenty bytes of req_pq_multi and the nonce, then the padding.
  ghost predicate Requests(body: Bytes, ticks: nat, nonce: Bytes, pad: Bytes)
  {
    && |body| == 40 + |pad|
    && body[..8] == Zeros(8)
    && (ticks < Pow256(8) ==> FromLittleEndian(body[8..16]) == ticks - ticks % 4)
    && FromLittleEndian(body[16..20]) == 20
    && FromLittleEndian(body[20..24]) == 0xBE7E8EF1
    && body[24..40] == nonce
    && body[40..] == pad
  }

  lemma SixParts(a: Bytes, b: Bytes, c: Bytes, d: Bytes, e: Bytes, f: Bytes)
    requires |a| == |b| == 8 && |c| == |d| == 4 && |e| == 16
    ensures var s := a + b + c + d + e + f;
      && s[..8] == a && s[8..16] == b && s[16..20] == c && s[20..24] == d && s[24..40] == e && s[40..] == f
  {
  }

  lemma FieldsRequest(msgId: Bytes, length: Bytes, method_: Bytes, ticks: nat, nonce: Bytes, pad: Bytes)
    requires |msgId| == 8 && |length| == |method_| == 4 && |nonce| == 16
    requires ticks < Pow256(8) ==> FromLittleEndian(msgId) == ticks - ticks % 4
    requires FromLittleEndian(length) == 20 && FromLittleEndian(method_) == 0xBE7E8EF1
    ensures Requests(Zeros(8) + msgId + length + method_ + nonce + pad, ticks, nonce, pad)
  {
    SixParts(Zeros(8), msgId, length, method_, nonce, pad);
  }

  lemma BodyRequests(ticks: nat, nonce: Bytes, pad: Bytes)
    requires |nonce| == 16
    ensures Requests(ReqPqInner(MsgId(ticks), nonce) + pad, ticks, nonce, pad)
  {
    LittleEndian4RoundTrip(20);
    LittleEndian4RoundTrip(REQ_PQ_MULTI);
    if ticks < Pow256(8) {
      LittleEndianRoundTrip(ticks - ticks % 4, 8);
    }
    FieldsRequest(MsgId(ticks), LittleEndian(20, 4), LittleEndian(REQ_PQ_MULTI, 4), ticks, nonce, pad);
  }

  /** The proxy recovers the transport tag, data centre 1, and the request, down to its fields,
      from nothing but the client's bytes and the shared secret. */
  lemma ServerRecoversRequest(c: Crypto, secret: Bytes, draw: Bytes, filler: Bytes, ticks: nat, nonce: Bytes,
                              pad: Bytes)
    requires |draw| == DRAW_LEN && |filler| == 2 && |nonce| == 16 && |pad| < 16
    ensures var r := ServerReads(c, secret, ClientBytes(c, secret, draw, filler, ticks, nonce, pad));
      && r.tag == [0xdd, 0xdd, 0xdd, 0xdd] && r.dc == 1 && r.declared == |r.body|
      && Requests(r.body, ticks, nonce, pad)
  {
    var k := SendKeys(c, secret, draw);
    var body := ReqPqInner(MsgId(ticks), nonce) + pad;
    var stream := ClientBytes(c, secret, draw, filler, ticks, nonce, pad);
    assert stream[..DRAW_LEN] == draw;
    KeysOfStream(c, secret, draw, stream);
    var junk, fill := DecryptedStream(c, k, draw, filler, Padded(body));
    ReadsOf(junk, fill, body, Crypt(c, k.key, k.iv, 0, stream));
    DcIdIsOne();
    BodyRequests(ticks, nonce, pad);
  }

  // What a proxy would take for another protocol: by the first byte, the first or the second word.
  ghost predicate StandsApart(stream: Bytes)
  {
    && |stream| >= 8 && stream[0] != 0xEF && FromLittleEndian(stream[4..8]) != 0
    && FromLittleEndian(stream[..4]) !in
         {0x44414548, 0x54534F50, 0x20544547, 0x4954504F, 0xEEEEEEEE, 0xDDDDDDDD, 0x02010316}
  }

  lemma SameFront(draw: Bytes, stream: Bytes)
    requires StandsApart(draw) && |stream| >= |draw| && stream[..|draw|] == draw
    ensures StandsApart(stream)
  {
    SliceOfSlice(stream, 0, |draw|, 0, 4);
    SliceOfSlice(stream, 0, |draw|, 4, 8);
    assert stream[0] == draw[0];
  }

  /** The draw the loop keeps is the first of its length that stands apart, and so does the
      frame it becomes. */
  lemma FrameStandsApart(c: Crypto, secret: Bytes, draws: seq<Bytes>, filler: Bytes) returns (i: nat)
    requires |filler| == 2 && exists i :: 0 <= i < |draws| && Acceptable(draws[i])
    ensures i < |draws| && draws[i] == FirstAcceptable(draws)
    ensures forall j :: 0 <= j < i ==> |draws[j]| != DRAW_LEN || !StandsApart(draws[j])
    ensures StandsApart(InitFrame(c, secret, FirstAcceptable(draws), filler))
  {
    i := IndexOfFirst(draws);
    var draw := FirstAcceptable(draws);
    var frame := InitFrame(c, secret, draw, filler);
    assert frame[..DRAW_LEN] == draw;
    SameFront(draw, frame);
  }

  lemma {:induction false} IndexOfFirst(draws: seq<Bytes>) returns (i: nat)
    requires exists i :: 0 <= i < |draws| && Acceptable(draws[i])
    ensures i < |draws| && draws[i] == FirstAcceptable(draws)
    ensures forall j :: 0 <= j < i ==> !Acceptable(draws[j])
  {
    if Acceptable(draws[0]) {
      i := 0;
    } else {
      var k :| 0 <= k < |draws| && Acceptable(draws[k]);
      assert draws[1..][k - 1] == draws[k];
      var r := IndexOfFirst(draws[1..]);
      i := r + 1;
    }
  }

  /** On the record-framed connection the proxy unwraps exactly those bytes. */
  lemma WrappedRequestUnwraps(sent: Bytes, end: StreamEnd)
    requires 1 <= |sent| <= MAX_RECORD
    ensures ReadRecord(Source(Frame(sent), end), true) == (Ok(sent), Source([], end))
  {
    ReadRecordOfWire([sent], end, true);
    assert Frame(sent) + Wire([]) == Frame(sent);
  }

  // ---- the answer ----

  // The channel will deliver exactly `rest`: as it stands, or cut into `records`.
  ghost predicate Supplies(ch: Channel, records: seq<Bytes>, rest: Bytes)
  {
    match ch
    case Raw(src) => src.data == rest
    case Framed(inner) => Carries(inner, records, rest)
  }

  function EndOf(ch: Channel): StreamEnd
  {
    match ch
    case Raw(src) => src.end
    case Framed(inner) => inner.src.end
  }

  lemma ReceiveSupplied(ch: Channel, records: seq<Bytes>, rest: Bytes, n: nat, body: bool) returns (left: seq<Bytes>)
    requires Supplies(ch, records, rest) && n <= |rest|
    ensures Receive(ch, n, body).0 == Ok(rest[..n])
    ensures Supplies(Receive(ch, n, body).1, left, rest[n..])
    ensures EndOf(Receive(ch, n, body).1) == EndOf(ch)
    ensures Receive(ch, n, body).1.Framed? == ch.Framed?
  {
    left := [];
    if ch.Framed? {
      left := DeliverRefinesFlat(ch.inner, records, rest, n);
    }
  }

  lemma TwoPieces(a: Bytes, b: Bytes, tail: Bytes)
    ensures (a + b + tail)[..|a|] == a && (a + b + tail)[|a|..] == b + tail
    ensures (b + tail)[..|b|] == b
  {}

  // The client's verdict on a stream that carries a whole answer.
  lemma OutcomeOfParts(c: Crypto, k: Keys, nonce: Bytes, ch: Channel, lenCt: Bytes, bodyCt: Bytes, body: Bytes)
    requires 24 <= |body| <= 4096
    requires Receive(ch, 4, false).0 == Ok(lenCt) && FromLittleEndian(Crypt(c, k.key, k.iv, 0, lenCt)) == |body|
    requires Receive(Receive(ch, 4, false).1, |body|, true).0 == Ok(bodyCt) && Crypt(c, k.key, k.iv, 4, bodyCt) == body
    ensures Outcome(c, k, nonce, ch) == (ValidateResPq(body, nonce), lenCt + bodyCt)
  {
  }

  lemma OutcomeOfWholeAnswer(c: Crypto, k: Keys, nonce: Bytes, ch: Channel, records: seq<Bytes>, body: Bytes,
                             tail: Bytes)
    requires 24 <= |body| <= 4096
    requires Supplies(ch, records, Crypt(c, k.key, k.iv, 0, Padded(body)) + tail)
    ensures Outcome(c, k, nonce, ch) == (ValidateResPq(body, nonce), Crypt(c, k.key, k.iv, 0, Padded(body)))
  {
    var prefix := LittleEndian(|body|, 4);
    var lenCt, bodyCt := Crypt(c, k.key, k.iv, 0, prefix), Crypt(c, k.key, k.iv, 4, body);
    CryptConcat(c, k.key, k.iv, 0, prefix, body);
    TwoPieces(lenCt, bodyCt, tail);
    var left := ReceiveSupplied(ch, records, lenCt + bodyCt + tail, 4, false);
    var _ := ReceiveSupplied(Receive(ch, 4, false).1, left, bodyCt + tail, |body|, true);
    CryptTwice(c, k.key, k.iv, 0, prefix);
    LittleEndian4RoundTrip(|body|);
    CryptTwice(c, k.key, k.iv, 4, body);
    OutcomeOfParts(c, k, nonce, ch, lenCt, bodyCt, body);
  }

  lemma HonestBodyIsValid(msgId: Bytes, nonce: Bytes, rest: Bytes, padding: Bytes)
    requires |msgId| == 8 && |nonce| == 16 && |rest| < 0x1_0000
    ensures ValidateResPq(ResPqBody(msgId, nonce, rest, padding), nonce) == None
  {
    var body := ResPqBody(msgId, nonce, rest, padding);
    assert body[..8] == Zeros(8);
    assert body[16..20] == LittleEndian(20 + |rest|, 4);
    LittleEndian4RoundTrip(20 + |rest|);
    var msg := LittleEndian(RES_PQ, 4) + nonce + rest;
    assert body[20..40 + |rest|] == msg;
    assert msg[..4] == LittleEndian(RES_PQ, 4) && msg[4..20] == nonce;
    LittleEndian4RoundTrip(RES_PQ);
  }

  /** The exchange succeeds against every honest proxy: whatever the random draw,
      filler, nonce, clock, padding and answer contents, and however the proxy cuts
      its stream into records or sends it raw. */
  lemma HonestExchangeSucceeds(c: Crypto, secret: Bytes, draw: Bytes, filler: Bytes, ticks: nat, nonce: Bytes,
                               pad: Bytes,
                               msgId: Bytes, rest: Bytes, padding: Bytes, tail: Bytes, ch: Channel, records: seq<Bytes>)
    requires |draw| == DRAW_LEN && |filler| == 2 && |nonce| == 16 && |pad| < 16
    requires |msgId| == 8 && |rest| + |padding| + 40 <= 4096
    requires var sent := ClientBytes(c, secret, draw, filler, ticks, nonce, pad);
      Supplies(ch, records, ServerWrites(c, secret, sent, Padded(ResPqBody(msgId, nonce, rest, padding))) + tail)
    ensures Outcome(c, RecvKeys(c, secret, draw), nonce, ch).0 == None
  {
    var sent := ClientBytes(c, secret, draw, filler, ticks, nonce, pad);
    assert sent[..DRAW_LEN] == draw;
    KeysOfStream(c, secret, draw, sent);
    HonestBodyIsValid(msgId, nonce, rest, padding);
    OutcomeOfWholeAnswer(c, RecvKeys(c, secret, draw), nonce, ch, records,
                         ResPqBody(msgId, nonce, rest, padding), tail);
  }

  // A plaintext that begins with a whole resPQ packet echoing `nonce`.
  predicate Answers(plain: Bytes, nonce: Bytes)
  {
    && |plain| >= 4
    && var n := FromLittleEndian(plain[..4]);
    && 24 <= n <= 4096 && 4 + n <= |plain|
    && plain[4..12] == Zeros(8)
    && var m := FromLittleEndian(plain[20..24]);
    && 20 <= m && 20 + m <= n
    && FromLittleEndian(plain[24..28]) == 0x05162463
    && plain[28..44] == nonce
  }

  lemma ValidExactly(body: Bytes, nonce: Bytes)
    requires |nonce| == 16 && 24 <= |body|
    ensures ValidateResPq(body, nonce) == None <==>
              var m := FromLittleEndian(body[16..20]);
              && body[..8] == Zeros(8) && 20 <= m && 20 + m <= |body|
              && FromLittleEndian(body[20..24]) == 0x05162463 && body[24..40] == nonce
  {
    var m := FromLittleEndian(body[16..20]);
    if 20 <= m && 20 + m <= |body| {
      SliceOfSlice(body, 20, 20 + m, 0, 4);
      SliceOfSlice(body, 20, 20 + m, 4, 20);
    }
  }

  lemma PacketAnswers(plain: Bytes, nonce: Bytes, n: nat)
    requires |nonce| == 16 && 24 <= n <= 4096 && 4 + n <= |plain| && n == FromLittleEndian(plain[..4])
    ensures ValidateResPq(plain[4..4 + n], nonce) == None <==> Answers(plain, nonce)
  {
    ValidExactly(plain[4..4 + n], nonce);
    SliceOfSlice(plain, 4, 4 + n, 0, 8);
    SliceOfSlice(plain, 4, 4 + n, 16, 20);
    SliceOfSlice(plain, 4, 4 + n, 20, 24);
    if n >= 40 {
      SliceOfSlice(plain, 4, 4 + n, 24, 40);
    }
  }

  // What the client makes of the first packet, in terms of the decrypted stream.
  lemma WholePacket(c: Crypto, k: Keys, nonce: Bytes, got: Bytes, n: nat)
    requires |nonce| == 16 && 24 <= n <= 4096 && 4 + n <= |got|
    requires n == FromLittleEndian(Crypt(c, k.key, k.iv, 0, got[..4]))
    ensures ValidateResPq(Crypt(c, k.key, k.iv, 4, got[4..4 + n]), nonce) == None <==>
              Answers(Crypt(c, k.key, k.iv, 0, got), nonce)
  {
    var plain := Crypt(c, k.key, k.iv, 0, got);
    FirstFour(c, k, got);
    CryptSlice(c, k.key, k.iv, 0, got, 4, 4 + n);
    PacketAnswers(plain, nonce, n);
  }

  lemma FirstFour(c: Crypto, k: Keys, got: Bytes)
    requires |got| >= 4
    ensures Crypt(c, k.key, k.iv, 0, got)[..4] == Crypt(c, k.key, k.iv, 0, got[..4])
  {
    CryptSlice(c, k.key, k.iv, 0, got, 0, 4);
    assert got[0..4] == got[..4];
  }

  /** The exact condition: on a stream that delivers `got` and ends, raw or cut into records,
      the exchange succeeds if and only if what it decrypts to begins with an answer. */
  lemma SuccessExactly(c: Crypto, k: Keys, nonce: Bytes, ch: Channel, records: seq<Bytes>, got: Bytes)
    requires |nonce| == 16 && Supplies(ch, records, got)
    ensures Outcome(c, k, nonce, ch).0 == None <==> Answers(Crypt(c, k.key, k.iv, 0, got), nonce)
  {
    if |got| < 4 {
      ReceiveTooMuch(ch, records, got, 4, false);
    } else {
      var left := ReceiveSupplied(ch, records, got, 4, false);
      var n := FromLittleEndian(Crypt(c, k.key, k.iv, 0, got[..4]));
      FirstFour(c, k, got);
      if 24 <= n <= 4096 {
        if 4 + n <= |got| {
          var _ := ReceiveSupplied(Receive(ch, 4, false).1, left, got[4..], n, true);
          assert got[4..][..n] == got[4..4 + n];
          WholePacket(c, k, nonce, got, n);
        } else {
          ReceiveTooMuch(Receive(ch, 4, false).1, left, got[4..], n, true);
        }
      }
    }
  }

  lemma ReceiveTooMuch(ch: Channel, records: seq<Bytes>, rest: Bytes, n: nat, body: bool)
    requires Supplies(ch, records, rest) && |rest| < n
    ensures Receive(ch, n, body).0.Err?
  {
    if ch.Framed? {
      var _ := DeliverRefinesFlat(ch.inner, records, rest, n);
    }
  }

  // A plaintext that is a resPQ packet echoing `nonce`.
  predicate EchoesNonce(plain: Bytes, nonce: Bytes)
  {
    && |plain| >= 44
    && FromLittleEndian(plain[..4]) == |plain| - 4
    && plain[4..12] == Zeros(8)
    && FromLittleEndian(plain[24..28]) == 0x05162463
    && plain[28..44] == nonce
  }

  /** Success means an echo: on any stream at all, honest or not, the client reports
      success only if the ciphertext it consumed decrypts to a resPQ carrying the
      nonce it had just drawn. */
  lemma SuccessImpliesEcho(c: Crypto, k: Keys, nonce: Bytes, ch: Channel)
    requires Outcome(c, k, nonce, ch).0 == None
    ensures EchoesNonce(Crypt(c, k.key, k.iv, 0, Outcome(c, k, nonce, ch).1), nonce)
  {
    var lenCt := Receive(ch, 4, false).0.value;
    var bodyCt := Outcome(c, k, nonce, ch).1[4..];
    ReceiveLength(ch, 4, false);
    var length := FromLittleEndian(Crypt(c, k.key, k.iv, 0, lenCt));
    ReceiveLength(Receive(ch, 4, false).1, length, true);
    assert Outcome(c, k, nonce, ch).1 == lenCt + bodyCt;
    EchoOfParts(c, k, nonce, lenCt, bodyCt);
  }

  lemma EchoOfParts(c: Crypto, k: Keys, nonce: Bytes, lenCt: Bytes, bodyCt: Bytes)
    requires |lenCt| == 4 && FromLittleEndian(Crypt(c, k.key, k.iv, 0, lenCt)) == |bodyCt|
    requires ValidateResPq(Crypt(c, k.key, k.iv, 4, bodyCt), nonce) == None
    ensures EchoesNonce(Crypt(c, k.key, k.iv, 0, lenCt + bodyCt), nonce)
  {
    CryptConcat(c, k.key, k.iv, 0, lenCt, bodyCt);
    EchoAt(Crypt(c, k.key, k.iv, 0, lenCt), Crypt(c, k.key, k.iv, 4, bodyCt), nonce);
  }

  lemma EchoAt(prefix: Bytes, body: Bytes, nonce: Bytes)
    requires |prefix| == 4 && FromLittleEndian(prefix) == |body|
    requires ValidateResPq(body, nonce) == None
    ensures EchoesNonce(prefix + body, nonce)
  {
    var plain := prefix + body;
    var msg := body[20..20 + FromLittleEndian(body[16..20])];
    CutAt(prefix, body);
    SliceAfter(prefix, body, 0, 8);
    SliceAfter(prefix, body, 20, 24);
    SliceAfter(prefix, body, 24, 40);
    SliceOfSlice(body, 20, 20 + |msg|, 0, 4);
    SliceOfSlice(body, 20, 20 + |msg|, 4, 20);
    assert plain[24..28] == msg[..4] && plain[28..44] == msg[4..20];
  }

  lemma ReceiveLength(ch: Channel, n: nat, body: bool)
    requires Receive(ch, n, body).0.Ok?
    ensures |Receive(ch, n, body).0.value| == n
  {
    if ch.Framed? {
      DeliverLength(ch.inner, n);
    }
  }

  lemma {:induction false} DeliverLength(st: Inner, n: nat)
    requires Deliver(st, n).0.Ok?
    ensures |Deliver(st, n).0.value| == n
    decreases |st.src.data|
  {
    if n > |st.buf| {
      var (record, src) := ReadRecord(st.src, st.buf == []);
      DeliverLength(Inner(st.buf + record.value, src), n);
    }
  }

  // ---- what a silent peer is reported as ----

  function VerdictOf(f: Failure): Verdict
  {
    if f.BodyTimeout? then ERROR else BLOCKED
  }

  // The channel has delivered `got` and gone silent, a framed one perhaps inside a record.
  ghost predicate StallsAfter(ch: Channel, records: seq<Bytes>, frag: Bytes, got: Bytes)
  {
    match ch
    case Raw(src) => src == Source(got, Stalled)
    case Framed(inner) => inner.src.end == Stalled && CarriesBefore(inner, records, frag, got) && Begun(frag)
  }

  /** A peer that goes silent after an acceptable length prefix, on a record boundary or inside
      a record.  On the raw stream the stall is always the ambiguous ERROR.  Through the
      record reader it is reported as a confirmed BLOCKED exactly when nothing beyond the
      four bytes of the prefix had arrived except, at most, a part of the next header: the
      reader then takes it for silence before the prefix. */
  lemma StallAfterLengthPrefix(c: Crypto, k: Keys, nonce: Bytes, ch: Channel, records: seq<Bytes>, frag: Bytes,
                               got: Bytes)
    requires StallsAfter(ch, records, frag, got)
    requires |got| >= 4 && 24 <= FromLittleEndian(Crypt(c, k.key, k.iv, 0, got[..4])) <= 4096
    requires |got| < 4 + FromLittleEndian(Crypt(c, k.key, k.iv, 0, got[..4]))
    ensures var failure := Outcome(c, k, nonce, ch).0;
      && failure.Some?
      && VerdictOf(failure.value) == if ch.Framed? && |got| == 4 && |frag| < HEADER_LEN then BLOCKED else ERROR
  {
    var length := FromLittleEndian(Crypt(c, k.key, k.iv, 0, got[..4]));
    if ch.Framed? {
      var left := DeliverBefore(ch.inner, records, frag, got, 4);
      DeliverStalls(Receive(ch, 4, false).1.inner, left, frag, got[4..], length);
    }
  }

  /** One that goes silent before the prefix is complete.  On the raw stream that is always
      BLOCKED, though some bytes may have come; through the record reader it is BLOCKED exactly
      when no payload had arrived and at most a part of a header, and ERROR otherwise. */
  lemma StallBeforeLengthPrefix(c: Crypto, k: Keys, nonce: Bytes, ch: Channel, records: seq<Bytes>, frag: Bytes,
                                got: Bytes)
    requires StallsAfter(ch, records, frag, got) && |got| < 4
    ensures var failure := Outcome(c, k, nonce, ch).0;
      && failure.Some?
      && VerdictOf(failure.value) == if ch.Framed? && !(got == [] && |frag| < HEADER_LEN) then ERROR else BLOCKED
  {
    if ch.Framed? {
      DeliverStalls(ch.inner, records, frag, got, 4);
    }
  }
}
