/** The probe of the mtg proxy as a whole: one connection, on which the fake-TLS hello, the
    welcome packet and the obfuscated2 exchange follow each other. */
module Connection {
  import opened Wrappers
  import opened Bytes
  import opened TlsRecords
  import opened FakeTls
  import opened Welcome
  import opened Obfuscated2

  const SID_START := 44
  const SID_END := 76

  datatype ProbeError =
    | NoHello(hello: HelloError)
    | HelloNotSent
    | BadWelcome(welcome: WelcomeError)
    | BadExchange(exchange: Failure)

  // What the probe draws and the clocks it reads.
  datatype Draws = Draws(
    sessionId: Bytes, share: Bytes, clock: nat,
    inits: seq<Bytes>, filler: Bytes, nonce: Bytes, ticks: nat, pad: Bytes)

  ghost predicate Drawn(d: Draws)
  {
    && |d.sessionId| == |d.share| == 32 && d.clock < 0x1_0000_0000
    && (exists i :: 0 <= i < |d.inits| && Acceptable(d.inits[i]))
    && |d.filler| == 2 && |d.nonce| == 16 && |d.pad| < 16
  }

  function Hello(c: Crypto, key: Bytes, sni: Bytes, d: Draws): Result<Bytes, HelloError>
    requires |d.sessionId| == |d.share| == 32
  {
    var zeroed := ZeroedHello(d.sessionId, sni, d.share);
    if zeroed.Err? then Err(zeroed.error) else Ok(WithRandom(zeroed.value, HelloRandom(c, key, zeroed.value, d.clock)))
  }

  function RandomOf(hello: Bytes): Bytes
    requires |hello| >= RANDOM_END
  {
    hello[RANDOM_OFFSET..RANDOM_END]
  }

  // The first stage that fails, if one does; `sent` and `wrote` say whether the two writes went
  // through.
  ghost function Probe(c: Crypto, key: Bytes, sni: Bytes, d: Draws, src: Source, sent: bool, wrote: bool)
    : Option<ProbeError>
    requires Drawn(d)
  {
    var hello := Hello(c, key, sni, d);
    if hello.Err? then Some(NoHello(hello.error))
    else if !sent then Some(HelloNotSent)
    else
      var (packet, left) := ReadFrom(src, 0, []);
      if packet.Err? then Some(BadWelcome(packet.error))
      else
        var refused := Validate(c, key, d.sessionId, RandomOf(hello.value), packet.value);
        if refused.Some? then Some(BadWelcome(refused.value))
        else
          var failure := if wrote
                         then Outcome(c, RecvKeys(c, key, FirstAcceptable(d.inits)), d.nonce, Framed(Inner([], left))).0
                         else Some(WriteFailed);
          if failure.Some? then Some(BadExchange(failure.value)) else None
  }

  /** The three stages on one reader; each starts where the one before it stopped reading. */
  method ProbeMtprotoProxy(c: Crypto, key: Bytes, sni: Bytes, d: Draws, reader: StreamReader, sent: bool, wrote: bool)
    returns (failure: Option<ProbeError>)
    requires Drawn(d)
    modifies reader
    ensures failure == Probe(c, key, sni, d, old(reader.View()), sent, wrote)
  {
    var hello, random := BuildClientHello(c, key, d.sessionId, sni, d.share, d.clock);
    if hello.Err? {
      return Some(NoHello(hello.error));
    }
    if !sent {
      return Some(HelloNotSent);
    }
    var packet := ReadWelcome(reader);
    if packet.Err? {
      return Some(BadWelcome(packet.error));
    }
    var refused := Validate(c, key, d.sessionId, random, packet.value);
    if refused.Some? {
      return Some(BadWelcome(refused.value));
    }
    var _, broken := Exchange(c, key, d.inits, d.filler, d.nonce, d.ticks, d.pad, reader, wrote, true);
    failure := if broken.Some? then Some(BadExchange(broken.value)) else None;
  }

  // ---- an honest proxy, which sees only the bytes the client sent ----

  // Its welcome packet: session id and random are read off the hello.
  function WelcomeOf(c: Crypto, key: Bytes, hello: Bytes, header: Bytes, more: Bytes, change: Bytes,
                     noise: Bytes): Bytes
    requires |hello| >= SID_END && |header| == 5
    requires |more| < 0xFF00 && |change| < 0x1_0000 && |noise| < 0x1_0000
  {
    ServerPacket(c, key, RandomOf(hello), Packet(ServerHello(header, hello[SID_START..SID_END], more), change, noise))
  }

  lemma HelloCarries(c: Crypto, key: Bytes, sni: Bytes, d: Draws)
    requires Drawn(d) && |sni| <= 282
    ensures Hello(c, key, sni, d).Ok? && |Hello(c, key, sni, d).value| == HELLO_LEN
    ensures Hello(c, key, sni, d).value[SID_START..SID_END] == d.sessionId
  {
    var zeroed := ZeroedHello(d.sessionId, sni, d.share).value;
    var hello := Hello(c, key, sni, d).value;
    HelloLengthExactly(d.sessionId, sni, d.share);
    HelloLengthFields(d.sessionId, sni, d.share);
    ZeroRandom(d.sessionId, sni, d.share);
    Restore(zeroed, HelloRandom(c, key, zeroed, d.clock));
    forall i | 0 <= i < 32
      ensures hello[SID_START + i] == d.sessionId[i]
    {
      assert hello[RANDOM_END..][1 + i] == zeroed[RANDOM_END..][1 + i];
      assert zeroed[SID_START + i] == d.sessionId[i];
    }
  }

  /** End to end: a proxy that holds the key, reads session id and random off the hello, answers
      with any welcome packet, and relays the answer to the request it decrypts, cut into
      records as it likes, is reported as working. */
  lemma HonestProxyIsReached(c: Crypto, key: Bytes, sni: Bytes, d: Draws,
                             header: Bytes, more: Bytes, change: Bytes, noise: Bytes,
                             msgId: Bytes, rest: Bytes, padding: Bytes, tail: Bytes, records: seq<Bytes>,
                             end: StreamEnd)
    requires Drawn(d) && |sni| <= 282
    requires |header| == 5 && 1 <= |change| && 1 <= |noise| && 86 + |more| + |change| + |noise| <= MAX_TOTAL
    requires |msgId| == 8 && |rest| + |padding| + 40 <= 4096 && WellSized(records)
    requires var sent := ClientBytes(c, key, FirstAcceptable(d.inits), d.filler, d.ticks, d.nonce, d.pad);
      Flat(records) == ServerWrites(c, key, sent, Padded(ResPqBody(msgId, d.nonce, rest, padding))) + tail
    ensures Hello(c, key, sni, d).Ok? && |Hello(c, key, sni, d).value| == HELLO_LEN
    ensures var welcome := WelcomeOf(c, key, Hello(c, key, sni, d).value, header, more, change, noise);
      Probe(c, key, sni, d, Source(welcome + Wire(records), end), true, true) == None
  {
    var draw := FirstAcceptable(d.inits);
    HelloCarries(c, key, sni, d);
    HonestWelcomeAccepted(c, key, d.sessionId, RandomOf(Hello(c, key, sni, d).value), header, more, change, noise,
                          Wire(records), end);
    var ch := Framed(Inner([], Source(Wire(records), end)));
    assert [] + Flat(records) == Flat(records);
    HonestExchangeSucceeds(c, key, draw, d.filler, d.ticks, d.nonce, d.pad, msgId, rest, padding, tail, ch, records);
  }

  /** And only such a stream is: on whatever arrives, success means that it begins with the
      packet a holder of the key computes for this very hello, session id echoed, and that
      the ciphertext taken after it decrypts to an answer echoing this very nonce. */
  lemma ReachedMeansAuthentic(c: Crypto, key: Bytes, sni: Bytes, d: Draws, src: Source, sent: bool, wrote: bool)
    returns (packet: Bytes, left: Source)
    requires Drawn(d) && Probe(c, key, sni, d, src, sent, wrote) == None
    ensures |sni| <= 282 && packet + left.data == src.data && |packet| >= SID_END
    ensures packet[SID_START..SID_END] == d.sessionId
    ensures packet == ServerPacket(c, key, RandomOf(Hello(c, key, sni, d).value), WithRandom(packet, Zeros(32)))
    ensures var k := RecvKeys(c, key, FirstAcceptable(d.inits));
      EchoesNonce(Crypt(c, k.key, k.iv, 0, Outcome(c, k, d.nonce, Framed(Inner([], left))).1), d.nonce)
  {
    var hello := Hello(c, key, sni, d).value;
    HelloLengthExactly(d.sessionId, sni, d.share);
    packet, left := ReadFrom(src, 0, []).0.value, ReadFrom(src, 0, []).1;
    ReadConsumesExactly(src, 0, []);
    assert [] + src.data == src.data;
    AcceptedIsServerPacket(c, key, d.sessionId, RandomOf(hello), packet);
    SuccessImpliesEcho(c, RecvKeys(c, key, FirstAcceptable(d.inits)), d.nonce, Framed(Inner([], left)));
  }
}
