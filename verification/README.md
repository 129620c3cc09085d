# A verified model of Censprobe

Censprobe measures which VPN and proxy protocols survive a censored network. A listener on a
server starts one responder per protocol and hands one-time credentials to a client; the client
probes each protocol; both sides derive verdicts from what the responders counted; reports are
imported into a dashboard database and scored. This project models the parts of that system whose
correctness is not visible in one function body, and proves what they promise.

| files | what they model |
|---|---|
| `Sequences`, `Bytes`, `TlsRecords` | byte strings, counter-mode encryption, and the reader that strips TLS record framing |
| `Obfuscated2` | the obfuscated2 exchange of a MTProto client with a proxy (Telegram "Transport obfuscation", "Padded intermediate") |
| `FakeTls`, `Welcome`, `Connection` | the ClientHello whose random field is a MAC, the welcome packet that answers it (RFC 8446 sections 4.1.2, 4.2 and 5.1), and the probe that runs hello, welcome and exchange on one connection |
| `Session` | the one-shot credential server: handler threads, the main loop and the polling client as one state machine |
| `Models`, `Registry`, `Responders` | what responders count, and the verdicts of both sides |
| `HandshakeLog`, `RuleTable`, `WirePoll` | the counters behind the verdicts: log, kernel rule table, byte counter poll |
| `Text`, `ProxyConf` | Python text functions, and parsing and rewriting proxy-multi.conf |
| `Reconciler`, `History`, `Rescoring` | the importer pass, and what rows and scores are after whole histories of disk states |
| `Lists`, `Scoring`, `ScoreInputs`, `Recommendations`, `ServerScores` | scores and recommended protocols |
| `Migrations` | the SQL value migrations against the translation done on reading |
| `Secrets`, `Config`, `Credentials`, `Generator` | from validated configuration to the credentials the client holds |

Code that updates state in place is a class or a method with loops, proved against a
specification function; the theorems are about those functions. The steps of the session state
machine are the same functions the credential server's methods are proved against, and
`Session.PerformAll` drives the object through any run. Random bytes, clock readings,
counter samples, log lines and file contents are inputs, and every theorem quantifies over them.
SHA-256, HMAC and the AES-CTR keystream are function parameters of fixed output length, so the
theorems hold for every choice of them.

## Where the code and its own description part

Where a member is named, it proves the point, with the exact condition where there is one.

- An acknowledged `/stop` can be lost: the handler reads the bound event before it sets the flag
  (`Session.AcknowledgedStopIsLost`); setting the flag first repairs it.
- `signature_algorithms` declares 20 bytes and carries 22, its inner list 18 and 20; every other length
  is right (`FakeTls.OneLengthIsWrong`, `FakeTls.OneInnerLengthIsWrong`). A parser that trusts the
  length never stands at supported_versions (`FakeTls.WalkLosesSupportedVersions`).
- Zero bytes that form no extension "should never happen" at the end of the hello. They do for host names
  of 279 to 281 bytes (`FakeTls.StrayZeros`).
- A peer that goes silent right after the length prefix is reported BLOCKED on a framed stream and
  ERROR on a raw one, and one that goes silent inside the prefix the other way round
  (`Obfuscated2.StallAfterLengthPrefix`, `Obfuscated2.StallBeforeLengthPrefix`). Silence before the prefix is
  BLOCKED in the code, where the docstrings of both probes say HANDSHAKE_ONLY (`Obfuscated2.StallBeforeLengthPrefix`).
- Counter rows are matched by substring: the counter of port 443 also reads the packets of port 4430
  (`RuleTable.Port443Reads4430`).
- A throughput measurement that starts after the 30 s deadline reports "measured, none" without one
  poll (`WirePoll.NoneRulesOutTrafficExactly`, `WirePoll.TrafficUnderNone`). A client that hangs is
  therefore recorded as None where the comment in the send promises a low rate
  (`WirePoll.SlowSendGetsRateExactly`).
- Snapshot and report are said to be identical because both follow stop(). Echo handlers that are still
  running, or a stop() that the shutdown deadline cancels, make them differ (`Responders.VerdictsDifferExactly`,
  `Responders.ReportDiffersExactly`, `Responders.CutStopDiffersExactly`).
- The counter rule of the original proxy is said not to outlive a failed start. It does when the daemon
  cannot be spawned (`Responders.OriginalResponder.Start`).
- Result and session rows of a directory do not depend on its history when every session id has a
  report that beats all its others, and but for one mixture only then (`History.HistoryIndependence`,
  `History.IndependentIffChampions`): of reports that share the latest start time, the one imported first
  stays. Mixed present and missing start times can make the importer rewrite rows forever
  (`History.MixedStartsNeverSettle`). Scores do depend on the history
  (`Rescoring.ScoresDependOnHistory`, with the exact condition in `Rescoring.ScoresCurrentExactly`).
- The SQL migrations and the parser differ on old throttling verdicts without a method and on every
  old verdict with an empty one (`Migrations.UpdatesAgreeExactly`).
- The configuration validator accepts a fake-TLS host name that is not ASCII; generating its secret
  raises (`Generator.AcceptedMayNotGenerate`).
- The parser of posted throughput promises no exception but raises on an integer no float can hold and
  on JSON the decoder gives up on, and counts booleans as numbers (`Session.ParseRates`).
- The docstring of the document writer says server-private keys are included; no section carries one
  (`Generator.PrivateHalvesStayHome`).
- The empty-host-name error of the ee secret cannot occur (`Secrets.FakeTlsSecretExactly`).

## Model

| member | source | states |
|---|---|---|
| TlsRecords.StreamReader.ReadExactly | packages/probe-core/src/censprobe_core/protocol_probes.py:2194-2232 | all `n` bytes or none; at end of stream the partial bytes are lost, on a timeout they stay |
| TlsRecords.TlsRecordReader.ReadInner | packages/probe-core/src/censprobe_core/protocol_probes.py:2142-2232 | equals the recursive specification of the call, returns exactly `n` bytes or a failure without data, and keeps the buffer below n + 16384 unless it was already larger |
| TlsRecords.ReadRecordExactly | packages/probe-core/src/censprobe_core/protocol_probes.py:2186-2221 | a record is read if and only if it is a whole one of application data, of any version and of 1..16384 bytes, and then exactly its payload |
| TlsRecords.OtherRecordsRefused | packages/probe-core/src/censprobe_core/protocol_probes.py:2199-2210 | another type, an alert say, is refused by its type, another length by its length |
| TlsRecords.DeliverRefinesFlat | packages/probe-core/src/censprobe_core/protocol_probes.py:2173-2232 | one call succeeds exactly when `n` payload bytes are left, delivers precisely the next ones, and leaves the rest buffered or on the wire |
| TlsRecords.FlatReadsConserve | packages/probe-core/src/censprobe_core/protocol_probes.py:2173-2232 | over any run of reads, delivered bytes followed by undelivered ones are the payload |
| TlsRecords.ReaderRefinesFlatStream | packages/probe-core/src/censprobe_core/protocol_probes.py:2142-2232 | for every segmentation into records of 1..16384 bytes and every sequence of read sizes the reader answers like a flat byte stream |
| TlsRecords.ReaderConserves | packages/probe-core/src/censprobe_core/protocol_probes.py:2142-2232 | delivered, buffered and unread bytes make up the payload after every run |
| TlsRecords.SegmentationIsInvisible | packages/probe-core/src/censprobe_core/protocol_probes.py:2142-2232 | two segmentations of one payload cannot be told apart by the caller |
| Bytes.CryptTwice | packages/probe-core/src/censprobe_core/protocol_probes.py:2036-2044 | decrypting at the position of encryption gives the data back, for every keystream |
| Bytes.CryptConcat | packages/probe-core/src/censprobe_core/protocol_probes.py:2335-2359 | one cipher update over a concatenation equals two updates at consecutive positions |
| Bytes.LittleEndianRoundTrip | packages/probe-core/src/censprobe_core/protocol_probes.py:2098-2106 | a fixed-width little-endian integer reads back |
| Bytes.XorBitsAt | packages/probe-core/src/censprobe_core/protocol_probes.py:2036-2058 | a bit of the XOR is set exactly when it differs in the two |
| Obfuscated2.CtrCipher.Update | packages/probe-core/src/censprobe_core/protocol_probes.py:2036-2066 | one update encrypts at the current counter position and advances it by the length |
| Obfuscated2.PickDraw | packages/probe-core/src/censprobe_core/protocol_probes.py:2008-2024 | the rejection loop returns the first draw that is acceptable |
| Obfuscated2.FrameStandsApart | packages/probe-core/src/censprobe_core/protocol_probes.py:2008-2024 | the draw is the first that no proxy takes for another protocol by its first byte, first word or second word, and neither does it so take the frame |
| Obfuscated2.PatchTail | packages/probe-core/src/censprobe_core/protocol_probes.py:2046-2058 | bytes 56..64 become the encrypted tag dd x 4, data centre 1 and the filler; bytes 0..56 are untouched |
| Obfuscated2.FrameBytes | packages/probe-core/src/censprobe_core/protocol_probes.py:2039-2066 | the frame is the draw followed by tag and data centre encrypted at counters 56 and 60, and the filler |
| Obfuscated2.BuildInit | packages/probe-core/src/censprobe_core/protocol_probes.py:1985-2066 | frame and both cipher streams: sending from counter 64 under the forward keys, receiving from counter 0 under the reversed ones |
| Obfuscated2.BuildReqPq | packages/probe-core/src/censprobe_core/protocol_probes.py:2075-2108 | the request is the padded-intermediate packet with a zero key id, the clock-derived message id, length 20 and the nonce |
| Obfuscated2.Exchange | packages/probe-core/src/censprobe_core/protocol_probes.py:2235-2360 | what is written and what is reported equal the specification of the exchange on the peer stream, raw or framed |
| Obfuscated2.ServerRecoversRequest | packages/probe-core/src/censprobe_core/protocol_probes.py:1985-2108 | a proxy that hashes bytes 8..40 with the secret and takes bytes 40..56 as counter block recovers tag dd x 4, data centre 1 and at counter 64 the request field by field, for every draw, filler, nonce, clock and padding |
| Obfuscated2.KeysOfStream | packages/probe-core/src/censprobe_core/protocol_probes.py:2026-2034 | both directions derive key and counter block from bytes 8..56 on the wire, read forwards and backwards, the key by hashing its 32 bytes followed by the secret |
| Obfuscated2.WrappedRequestUnwraps | packages/probe-core/src/censprobe_core/protocol_probes.py:2292-2299 | sent inside one TLS record, the bytes unwrap to the same stream |
| Obfuscated2.HonestExchangeSucceeds | packages/probe-core/src/censprobe_core/protocol_probes.py:2235-2360 | against an honest proxy the exchange reports success, for every draw, answer padding, record segmentation and bytes that follow |
| Obfuscated2.SuccessImpliesEcho | packages/probe-core/src/censprobe_core/protocol_probes.py:2111-2139 | success is reported only if the consumed ciphertext decrypts to a resPQ echoing the nonce, on any stream at all |
| Obfuscated2.SuccessExactly | packages/probe-core/src/censprobe_core/protocol_probes.py:2111-2360 | on a stream that delivers given bytes, raw or in records, the exchange succeeds if and only if they decrypt to a packet of 24..4096 bytes that begins with a resPQ echoing the nonce |
| Obfuscated2.StallAfterLengthPrefix | packages/probe-core/src/censprobe_core/protocol_probes.py:2173-2232 | a stall after an acceptable length prefix, on a record boundary or inside a record, is reported BLOCKED exactly when the reader is framed and nothing beyond the four prefix bytes and a part of the next record header arrived; otherwise ERROR |
| Obfuscated2.StallBeforeLengthPrefix | packages/probe-core/src/censprobe_core/protocol_probes.py:2292-2329 | a stall before the prefix is complete is BLOCKED on a raw stream, and through the record reader exactly when no payload and at most a part of a header arrived; otherwise ERROR |
| FakeTls.BuildClientHello | packages/probe-core/src/censprobe_core/protocol_probes.py:1516-1626 | the built hello is the zeroed one with the masked MAC in its random field, or the error that refuses it |
| FakeTls.MaskClock | packages/probe-core/src/censprobe_core/protocol_probes.py:1618-1626 | the random field is the MAC with the little-endian clock XORed into its last four bytes |
| FakeTls.HelloLengthExactly | packages/probe-core/src/censprobe_core/protocol_probes.py:1540-1616 | 517 bytes exactly for host names of at most 282 bytes; a longer one is refused, by an overflow once a length field no longer fits |
| FakeTls.HelloLengthFields | packages/probe-core/src/censprobe_core/protocol_probes.py:1542-1613 | record, handshake, session-id and extension-block length fields each equal what they cover |
| FakeTls.HelloFixedFields | packages/probe-core/src/censprobe_core/protocol_probes.py:1540-1562 | record type and version, handshake type and version, cipher suites and compression are the listed bytes, and the random is zero before it is masked |
| FakeTls.HelloOffers | packages/probe-core/src/censprobe_core/protocol_probes.py:1576-1592 | groups, points, signature algorithms, versions, key exchange mode and key share stand in the block as listed |
| FakeTls.SniLengthFields | packages/probe-core/src/censprobe_core/protocol_probes.py:1570-1575 | the three length fields of the server_name extension each equal what they cover |
| FakeTls.PaddingLengthField | packages/probe-core/src/censprobe_core/protocol_probes.py:1594-1611 | up to 278 host bytes the block ends in a padding extension whose length runs exactly to the end |
| FakeTls.OneLengthIsWrong | packages/probe-core/src/censprobe_core/protocol_probes.py:1568-1611 | every extension stands where the payload before it ends, and its declared length leads there if and only if it is not `signature_algorithms`, which declares two bytes less |
| FakeTls.OneInnerLengthIsWrong | packages/probe-core/src/censprobe_core/protocol_probes.py:1576-1590 | every length inside the payloads (those of server_name apart, which have their own row) equals what it covers, except that the list of `signature_algorithms` declares 18 bytes and carries 20 |
| FakeTls.StrayZeros | packages/probe-core/src/censprobe_core/protocol_probes.py:1594-1611 | from 279 to 282 host bytes the block ends in 282 - n zero bytes, too few for an extension header |
| FakeTls.WalkLosesSupportedVersions | packages/probe-core/src/censprobe_core/protocol_probes.py:1581-1586 | a parser that trusts the declared lengths meets type 0x0201 and then a header inside the random key share, and never stands at supported_versions, however many steps it takes |
| FakeTls.ServerRecoversClock | packages/probe-core/src/censprobe_core/protocol_probes.py:1613-1626 | a server XORing its MAC of the zeroed hello with the received random recovers 28 zero bytes and the clock |
| Welcome.ReadWelcome | packages/probe-core/src/censprobe_core/protocol_probes.py:1696-1726 | equals the recursive specification of reading three records of types 0x16, 0x14, 0x17 |
| Welcome.ReadOneRecord | packages/probe-core/src/censprobe_core/protocol_probes.py:1655-1693 | one record with its header, or the error of the first rule it breaks |
| Welcome.ReadConsumesExactly | packages/probe-core/src/censprobe_core/protocol_probes.py:1655-1726 | on any stream, a packet that is read is exactly the bytes consumed and at most 16 KiB |
| Welcome.ReadsExactly | packages/probe-core/src/censprobe_core/protocol_probes.py:1655-1726 | a packet is read if and only if it comes next on the stream and is three non-empty records of types 0x16, 0x14, 0x17 and version 3.3, of at most 16 KiB in all |
| Welcome.ReadsHonestPacket | packages/probe-core/src/censprobe_core/protocol_probes.py:1655-1726 | every three-record reply that fits 16 KiB is read whole, and nothing after it is touched |
| Welcome.AcceptedIsServerPacket | packages/probe-core/src/censprobe_core/protocol_probes.py:1736-1790 | an accepted packet echoes the session id and carries the MAC over client random and zeroed packet |
| Welcome.AcceptedExactly | packages/probe-core/src/censprobe_core/protocol_probes.py:1736-1790 | a packet is accepted if and only if it is a ServerHello, echoes the session id, and carries the MAC over client random and itself with bytes 11..43 zeroed |
| Welcome.HonestWelcomeAccepted | packages/probe-core/src/censprobe_core/protocol_probes.py:1655-1790 | reading and validating accepts every honest reply, whatever follows it |
| Connection.ProbeMtprotoProxy | packages/probe-core/src/censprobe_core/protocol_probes.py:1833-1889 | hello, welcome packet and exchange on one reader, each stage from where the one before it stopped, and the first failure |
| Connection.HonestProxyIsReached | packages/probe-core/src/censprobe_core/protocol_probes.py:1794-1889 | a proxy that works from the bytes of this one connection and the key, with any welcome packet, answer and segmentation, is reported as working |
| Connection.ReachedMeansAuthentic | packages/probe-core/src/censprobe_core/protocol_probes.py:1794-1889 | on any stream, success means a welcome packet with the MAC for this hello and the session id, followed by an answer that echoes this nonce |
| Session.CredServer.ServeCredsLocked | packages/listener/src/censprobe_listener/cred_server.py:387-409 | one grant while a serve remains, recording the peer; none afterwards |
| Session.CredServer.CommitFinalSnapshots | packages/listener/src/censprobe_listener/cred_server.py:221-231 | the committed map becomes the final one |
| Session.CredServer.MergeRates | packages/listener/src/censprobe_listener/cred_server.py:486-494 | posted rates overwrite the stored ones name by name |
| Session.CredServer.BindLocked | packages/listener/src/censprobe_listener/cred_server.py:192-208 | the event becomes visible to handlers and the flag is read in the same locked section |
| Session.PerformAll | packages/listener/src/censprobe_listener/cred_server.py:113-156 | performing any run on the object by the sections its steps execute leaves the fields of the run, so what holds of runs holds of the object |
| Session.EveryRunKeepsInvariants | packages/listener/src/censprobe_listener/cred_server.py:113-156 | over every interleaving: grants plus remaining serves is 1, the client is the granted peer, every snapshot answer carries the committed map, and drained implies an answer was written |
| Session.GrantsExactly | packages/listener/src/censprobe_listener/cred_server.py:387-409 | on every run exactly the first credential request is granted, and its peer is the client |
| Session.FinalExactly | packages/listener/src/censprobe_listener/cred_server.py:221-231 | what is final is exactly what the trace committed |
| Session.CommittedIsServed | packages/listener/src/censprobe_listener/cred_server.py:411-461 | a snapshot request after the commit is answered with the committed map, written and drained; one before it is refused |
| Session.RepliesFollowCommit | packages/listener/src/censprobe_listener/cred_server.py:411-461 | every /snapshot 200 follows a commit of the very map it carries |
| Session.RepeatedPostIsIdempotent | packages/listener/src/censprobe_listener/cred_server.py:486-494 | posting the same rates again with no different post between leaves the stored map unchanged |
| Session.RatesExactly | packages/listener/src/censprobe_listener/cred_server.py:486-494 | the stored rate of a name is the one of the last post that had it, and no other name is stored |
| Session.SignalledExactly | packages/listener/src/censprobe_listener/cred_server.py:192-208 | the main loop is woken exactly when some handler read the event after the bind or some flag was set before the locked check of the bind |
| Session.AcknowledgedStopIsLost | packages/listener/src/censprobe_listener/cred_server.py:463-517 | a trace, for every handler and posted map, in which an acknowledged /stop completes and never wakes the main loop |
| Session.NoStopIsLostFlagFirst | packages/listener/src/censprobe_listener/cred_server.py:463-517 | with the flag set before the locked read, every completed /stop has woken the main loop once bind has completed |
| Session.ParseRates | packages/listener/src/censprobe_listener/cred_server.py:520-557 | the map holds exactly the positive finite entries, none when the body is absent, undecodable or of another shape; the call raises exactly when the decoder gives up or some entry is an integer no float can hold |
| Models.ProtocolResult.Finalize | packages/probe-core/src/censprobe_core/models.py:377-439 | the verdict is the derived one, lowered to the cap when it ranks above |
| Models.FinalizedMonotone | packages/probe-core/src/censprobe_core/models.py:377-457 | more handshakes or data that has since arrived never lower the rank |
| Responders.MtgResponder.Stop | packages/listener/src/censprobe_listener/mtproxy_responder.py:123-167 | the counter is read while its rule stands, then the rule and the process go; cut short after any step, exactly the steps before it have happened |
| Responders.OpenVpnResponder.LatchAuthBytes | packages/listener/src/censprobe_listener/openvpn_responder.py:192-218 | the latch ends as the largest reading seen |
| Responders.OpenVpnResponder.Stop | packages/listener/src/censprobe_listener/openvpn_responder.py:305-384 | status file and counter are read before the rule, the process and the tun go; likewise for every cut |
| Responders.OpenVpnSession | packages/listener/src/censprobe_listener/openvpn_responder.py:305-384 | the final byte count is the largest reading ever seen, and there is a handshake exactly when one was positive |
| Responders.WireGuardResponder.Stop | packages/listener/src/censprobe_listener/wg_responder.py:206-237 | handshakes and received bytes are read while the interface stands, then it goes; likewise for every cut |
| Responders.OriginalResponder.Start | packages/listener/src/censprobe_listener/mtproto_orig_responder.py:136-298 | without a reachable upstream nothing is touched; otherwise the rule precedes the launch, and a failed launch leaves it behind exactly when the daemon could not be spawned |
| Responders.OriginalResponder.Stop | packages/listener/src/censprobe_listener/mtproto_orig_responder.py:300-348 | the count is raised to the packets read while the rule stands, unless unavailable; likewise for every cut |
| Responders.StopResponders | packages/listener/src/censprobe_listener/main.py:886-925 | every responder is stopped as far as the deadline lets it, from what there was to read when it began |
| Responders.BuildFinalSnapshots | packages/listener/src/censprobe_listener/main.py:748-785 | one committed entry per protocol, with preflight facts attached, or the marker that taking it failed |
| Responders.FinalizeSessionResults | packages/listener/src/censprobe_listener/main.py:788-820 | one finalised verdict per protocol |
| Responders.DeriveListenerVerdict | packages/client/src/censprobe_client/main.py:1054-1097 | the client-side derivation equals the listener verdict function on the received snapshot |
| Responders.SnapshotAgreesWithReport | packages/listener/src/censprobe_listener/main.py:928-1016 | after stop() the verdict from the committed snapshot equals the report verdict, for every protocol, counter value and preflight outcome |
| Responders.VerdictExactly | packages/listener/src/censprobe_listener/main.py:928-1016 | the verdict after a whole stop(), for every kind of responder, from what there was to read when it began |
| Responders.CommittedFields | packages/listener/src/censprobe_listener/main.py:748-785 | which self-test and preflight facts a committed entry carries, by protocol |
| Responders.VerdictsDifferExactly | packages/listener/src/censprobe_listener/main.py:576-635 | stopped or not, for every kind of responder and whatever moves on between commit and report: the exact condition under which the two verdicts differ; once stopped, exactly when late bytes carry an echo count over its floor |
| Responders.CutStopDiffersExactly | packages/listener/src/censprobe_listener/main.py:886-925 | a stop of an mtg responder cut short: by the step it had reached and the streams counted at either moment, exactly when the two verdicts differ |
| Responders.CutOriginalDiffersExactly | packages/listener/src/censprobe_listener/main.py:886-925 | likewise for the original proxy, exactly when packets are seen on one side only |
| Responders.CloseSession | packages/listener/src/censprobe_listener/main.py:571-635 | stop, commit, finalise: for every protocol whose snapshot was taken the two sides differ exactly where what stop() left or what moved on since makes them, and after a whole stop() exactly where late bytes carry an echo count over its floor |
| Responders.ReportNeverLower | packages/listener/src/censprobe_listener/echo_server.py:270-314 | once a responder has stopped, what moves on since never lowers the report verdict |
| Responders.ReportDiffersExactly | packages/listener/src/censprobe_listener/echo_server.py:571-582 | for the SOCKS protocols the two differ exactly when the late bytes carry the count over the echo floor |
| Responders.FailedSnapshotIsBlocked | packages/listener/src/censprobe_listener/main.py:748-785 | a snapshot that could not be taken reads as BLOCKED |
| Responders.ListenerIsAuthoritative | packages/client/src/censprobe_client/main.py:1119-1199 | the agreed verdict never ranks above the listener verdict and is below it in exactly one case |
| Responders.AgreedExactly | packages/client/src/censprobe_client/main.py:1119-1199 | the agreed verdict is HANDSHAKE_ONLY for a timed-out client that the listener saw, otherwise the verdict of the listener; and which note goes with it |
| Responders.ClosedGateNeverOk | packages/client/src/censprobe_client/main.py:1119-1199 | with the Telegram gate closed, no client error brings back an OK |
| HandshakeLog.MtgMonitor.MonitorOutput | packages/listener/src/censprobe_listener/mtproxy_responder.py:169-227 | the counter after any log is the largest balance of starts minus failures over all suffixes |
| HandshakeLog.ClassifiedExactly | packages/listener/src/censprobe_listener/mtproxy_responder.py:193-225 | a line is a start exactly when it holds the start marker in any case, and a failure exactly when it holds one of the eight failure markers and not that |
| HandshakeLog.CounterIsMaxSuffix | packages/listener/src/censprobe_listener/mtproxy_responder.py:193-225 | the floored counter equals that maximum, the empty suffix included |
| HandshakeLog.ExactIffMatched | packages/listener/src/censprobe_listener/mtproxy_responder.py:193-225 | the counter is exactly starts minus failures if and only if each failure has its own earlier start |
| RuleTable.Kernel.InstallCounter | packages/listener/src/censprobe_listener/_iptables_counter.py:130-159 | per family: the table and status after check-then-add under every behaviour of the tool |
| RuleTable.InstallExactly | packages/listener/src/censprobe_listener/_iptables_counter.py:130-159 | a tool that can add leaves the rule in place and says so; one new rule with zero counts stands behind the others unless the check saw one, or nothing could be added |
| RuleTable.Kernel.RemoveCounter | packages/listener/src/censprobe_listener/_iptables_counter.py:292-330 | per family: one matching rule deleted where the status or its absence asks for it |
| RuleTable.DeleteExactly | packages/listener/src/censprobe_listener/_iptables_counter.py:292-330 | a deletion takes out the first such rule and nothing else, and nothing where there is none |
| RuleTable.Kernel.InstallThenRemove | packages/listener/src/censprobe_listener/_iptables_counter.py:130-159 | install then remove with the returned status, whatever the tools do: both tables are restored exactly when every installed one is |
| RuleTable.RestoredExactly | packages/listener/src/censprobe_listener/_iptables_counter.py:292-330 | one table is restored exactly when a rule that was seen is not deleted, and one that was added is deleted and had not stood there unseen |
| RuleTable.WorkingToolRestores | packages/listener/src/censprobe_listener/_iptables_counter.py:292-330 | with a tool that works, that is exactly when the rule was not there before |
| RuleTable.InstallIdempotent | packages/listener/src/censprobe_listener/_iptables_counter.py:130-159 | installing twice is installing once, and keeps existing counts |
| RuleTable.BlindInstallDuplicates | packages/listener/src/censprobe_listener/_iptables_counter.py:76-127 | when the check cannot run, a second install adds a duplicate exactly when it adds at all |
| RuleTable.OthersUntouched | packages/listener/src/censprobe_listener/_iptables_counter.py:292-330 | no rule with other arguments or in another chain changes |
| RuleTable.SumColumn | packages/listener/src/censprobe_listener/_iptables_counter.py:215-228 | the loop adds up the chosen column over the lines that contain the comment |
| RuleTable.LineCounts | packages/listener/src/censprobe_listener/_iptables_counter.py:215-228 | a line counts the number in the chosen cell, or nothing where it lacks the comment, the cell or the number, wherever it stands |
| RuleTable.ScrapeCounterColumn | packages/listener/src/censprobe_listener/_iptables_counter.py:230-241 | the readings of both families together, a missing or failing one counting nothing |
| RuleTable.RowMatchesByComment | packages/listener/src/censprobe_listener/_iptables_counter.py:215-228 | a listing row matches a comment exactly when its own comment contains it as text |
| RuleTable.PortPrefix | packages/listener/src/censprobe_listener/_iptables_counter.py:215-228 | with a label ending in a dash, row L+q matches comment L+p exactly when the decimal of p is a prefix of that of q |
| RuleTable.ReadingIsPrefixSum | packages/listener/src/censprobe_listener/_iptables_counter.py:213-227 | the value read off one listing for L+p is the sum over all rules whose port has p as decimal prefix |
| RuleTable.BothFamiliesPrefixSum | packages/listener/src/censprobe_listener/_iptables_counter.py:230-241 | the value read for L+p over both families is that sum over both tables |
| RuleTable.SiblingIsolation | packages/listener/src/censprobe_listener/mtproxy_responder.py:57 | the reading for L+p is free of the packets of sibling L+q exactly when p is not a decimal prefix of q |
| RuleTable.Port443Reads4430 | packages/listener/src/censprobe_listener/mtproxy_responder.py:57 | ports 443 and 4430: the reading of the first is the sum of both counts, that of the second its own |
| WirePoll.Poll | packages/listener/src/censprobe_listener/echo_server.py:455-508 | the loop ends within 300 polls with the outcome the observations determine |
| WirePoll.MeasureViaCounter | packages/listener/src/censprobe_listener/echo_server.py:436-508 | the measurement is the outcome the observations determine |
| WirePoll.EchoServer.ServeThroughput | packages/listener/src/censprobe_listener/echo_server.py:316-434 | what is recorded: the word of a counter that was readable and stayed so, otherwise the rate of the send; nothing for a bad request or an aborted send |
| WirePoll.EchoServer.RecordWaitClosed | packages/listener/src/censprobe_listener/echo_server.py:510-547 | the rate of the send, or None where the buffers absorbed it |
| WirePoll.SlowSendGetsRateExactly | packages/listener/src/censprobe_listener/echo_server.py:391-434 | a send of thirty seconds or more is recorded with a rate if and only if no counter was readable before it |
| WirePoll.OutcomeIsUnique | packages/listener/src/censprobe_listener/echo_server.py:455-508 | the observations determine outcome and number of polls |
| WirePoll.RateIsExact | packages/listener/src/censprobe_listener/echo_server.py:384-425 | a reported rate times the elapsed time is 8 bits per byte over 10^6, and is positive |
| WirePoll.MeasuredRate | packages/listener/src/censprobe_listener/echo_server.py:485-508 | a measured rate is the growth from the reading before the send to the last one, over the time from the send to that last reading |
| WirePoll.NoneMeansNoGrowthSeen | packages/listener/src/censprobe_listener/echo_server.py:455-508 | for a non-decreasing counter a measured None says exactly that no poll saw growth |
| WirePoll.NoneRulesOutTrafficExactly | packages/listener/src/censprobe_listener/echo_server.py:455-508 | a measured None rules out wire traffic from the first reading to the last look if and only if the first poll is checked before the deadline |
| WirePoll.LateStartMeasuresNothing | packages/listener/src/censprobe_listener/echo_server.py:455-508 | a call that starts after the deadline answers a measured None without one poll |
| WirePoll.TrafficUnderNone | packages/listener/src/censprobe_listener/echo_server.py:455-508 | a witness: a million bytes crossed the wire and the measurement is None |
| ProxyConf.ParseUpstreams | packages/listener/src/censprobe_listener/preflight.py:827-876 | the parsed list is that of the specification, for every text, ports in any decimal digits |
| ProxyConf.LineParsesExactly | packages/listener/src/censprobe_listener/preflight.py:854-871 | which lines name an upstream, and which one: the directive, the cluster, an address and a port around the last colon, any number of semicolons |
| ProxyConf.ParsedExactly | packages/listener/src/censprobe_listener/preflight.py:854-876 | for every text, the parsed list is exactly what the lines say that are the first to name their endpoint, in line order |
| Text.SplitAtBreak | packages/listener/src/censprobe_listener/preflight.py:854 | a terminator ends a line, a carriage return taking the line feed after it along; a text without one is one line, or none if empty |
| Text.StripsExactly | packages/listener/src/censprobe_listener/preflight.py:855 | stripping removes the whitespace around a text that begins and ends with something else |
| Text.SplitsExactly | packages/listener/src/censprobe_listener/preflight.py:858 | tokens end at whitespace or the end of the text, and whitespace before one does not matter |
| Text.DigitsRead | packages/listener/src/censprobe_listener/preflight.py:868 | decimal digits of any script are read as the number they write |
| Text.BlocksExactly | packages/listener/src/censprobe_listener/preflight.py:868 | which characters are decimal digits, and of which value: the ten of each block |
| ProxyConf.ParsedWellFormed | packages/listener/src/censprobe_listener/preflight.py:827-876 | every parsed upstream is well formed and none occurs twice |
| ProxyConf.Partition | packages/listener/src/censprobe_listener/preflight.py:960-984 | alive and unreachable are the elements with that answer |
| ProxyConf.SelectIsSubsequence | packages/listener/src/censprobe_listener/preflight.py:960-984 | each side is the ordered subsequence at exactly the positions with its answer, so the two partition the list |
| ProxyConf.WritePruned | packages/listener/src/censprobe_listener/preflight.py:987-1034 | refuses an empty list; otherwise writes the default line, then one line per alive upstream |
| ProxyConf.PrunedParsesBack | packages/listener/src/censprobe_listener/preflight.py:1017-1034 | parsing the written file gives back exactly the upstreams it was written from, in order |
| ProxyConf.PrunedSays | packages/listener/src/censprobe_listener/preflight.py:1030-1034 | the written file is the default line and one directive per upstream, with cluster, address and port |
| ProxyConf.ReachableSurviveRewrite | packages/listener/src/censprobe_listener/preflight.py:827-1034 | parse, partition, rewrite and parse again yields exactly the reachable upstreams of the source, in source order and without duplicates |
| ProxyConf.PrunedKeepsDefault | packages/listener/src/censprobe_listener/preflight.py:1017-1028 | the default line is the first one of the source, or `default 2;` |
| Reconciler.Importer.TryImportOneFile | packages/dashboard/sync-api/src/sync_api/main.py:302-325 | a file is imported by its kind under a savepoint: the new run, or the old one unchanged |
| Reconciler.Importer.ImportSoloReport | packages/dashboard/sync-api/src/sync_api/main.py:735-745 | all rows of the file, or none when a (test, target) pair repeats, a value does not fit or there is no row |
| Reconciler.Importer.ImportListenerReport | packages/dashboard/sync-api/src/sync_api/main.py:748-827 | insert, replace an older holder of the session id, or leave the run as it was |
| Reconciler.Importer.ImportOneTestDir | packages/dashboard/sync-api/src/sync_api/main.py:405-466 | one directory pass: prune, import the settled files not imported yet, rescore if anything changed; an emptied directory loses its run, and one whose run is missing and cannot be created is skipped |
| Reconciler.Importer.ImportDirs | packages/dashboard/sync-api/src/sync_api/main.py:489-519 | after the loop every listed directory is at its goal and no other run changed, in whatever order directories are visited |
| Reconciler.Importer.ReconcileMissingTestRuns | packages/dashboard/sync-api/src/sync_api/main.py:469-486 | runs of vanished directories go, the others stay, and the number of deletions is returned |
| Reconciler.Importer.ImportOnce | packages/dashboard/sync-api/src/sync_api/main.py:489-519 | one pass over the workspace; a missing reports directory changes nothing |
| History.AfterIsCanonical | packages/dashboard/sync-api/src/sync_api/main.py:405-519 | after any history of disk states, unsettled files on the way included, a directory has a run exactly when it holds a file and the run was there or could be created, with exactly the rows its files stand for, whatever other directories hold |
| History.HistoryIndependence | packages/dashboard/sync-api/src/sync_api/main.py:405-519 | two histories that end in the same disk end in the same result and session rows of a directory, whatever other directories hold |
| History.IndependentNeedsOneUnbeaten | packages/dashboard/sync-api/src/sync_api/main.py:748-827 | whatever the start times, rows that are independent of the history need exactly one unbeaten report per session id |
| History.IndependentIffChampions | packages/dashboard/sync-api/src/sync_api/main.py:748-827 | unless a tie meets a report without start time, the rows of a settled directory are independent of its history if and only if every session id has a report that beats all its others |
| History.LatestReportIsChampion | packages/dashboard/sync-api/src/sync_api/main.py:771-797 | with present and distinct start times every session id has a report that beats all others, and it is the one that started last |
| History.LastNameIsChampion | packages/dashboard/sync-api/src/sync_api/main.py:786-788 | without any start times every session id has such a report too, the one with the last file name |
| History.SessionsShowTheLatest | packages/dashboard/sync-api/src/sync_api/main.py:748-827 | after any history each non-empty session id of a directory has one row, that of its latest report |
| History.SettlesExactly | packages/dashboard/sync-api/src/sync_api/main.py:405-466 | a second pass over an unchanged directory changes nothing exactly when no report on disk would replace a row of the first pass |
| History.SettlesIffChampions | packages/dashboard/sync-api/src/sync_api/main.py:748-827 | without ties, a second pass changes nothing if and only if every session id has a report that beats all its others |
| History.SecondPassChangesNothing | packages/dashboard/sync-api/src/sync_api/main.py:489-519 | then a second pass over the unchanged workspace changes nothing at all, scores included |
| History.MixedStartsNeverSettle | packages/dashboard/sync-api/src/sync_api/main.py:771-797 | three reports of one session, one without a start time, beat each other in a circle: every further pass changes the rows again |
| Rescoring.ScoresCurrentExactly | packages/dashboard/sync-api/src/sync_api/main.py:405-466 | after a pass the stored scores are those of the disk if and only if they were before or the pass changed a row |
| Rescoring.RowsDifferExactly | packages/dashboard/sync-api/src/sync_api/main.py:405-466 | a pass changes a row if and only if an imported file is gone from disk or a settled new one is importable and finds its session id free or beats the holder |
| Rescoring.StoredScoresExactly | packages/dashboard/sync-api/src/sync_api/main.py:405-466 | after a pass that changed a row the stored scores rest on the last solo report on disk and the valid listener reports |
| Rescoring.StoredScoresWithoutSolo | packages/dashboard/sync-api/src/sync_api/main.py:522-550 | without a solo report only the session count is stored |
| Rescoring.LatestSoloIsLast | packages/dashboard/sync-api/src/sync_api/main.py:569-586 | the scored solo rows are those of the last solo report |
| Rescoring.ScoringListenersExactly | packages/dashboard/sync-api/src/sync_api/main.py:589-600 | exactly the listener reports that validate are scored, in the order of the listing |
| Rescoring.ReportNames | packages/dashboard/sync-api/src/sync_api/parser.py:255-260 | which file names are solo reports and which listener reports |
| Rescoring.LateOlderReportIsNotScored | packages/dashboard/sync-api/src/sync_api/main.py:328-351 | a late older report, wherever it is listed, changes nothing, so scores that were current are one session short |
| Rescoring.RemovedOlderReportStaysScored | packages/dashboard/sync-api/src/sync_api/main.py:405-466 | a beaten report that is removed again, wherever it was listed, changes nothing either, so scores that counted it are one session too high |
| Rescoring.ScoresDependOnHistory | packages/dashboard/sync-api/src/sync_api/main.py:405-466 | two histories that end in one disk and one set of rows, with different stored scores |
| Rescoring.ScoresDiffer | packages/dashboard/sync-api/src/sync_api/main.py:405-466 | such reports, histories and a disk exist |
| Rescoring.SessionCountMatchesRows | packages/dashboard/sync-api/src/sync_api/main.py:522-615 | with valid reports the scored session count equals the number of session rows exactly when no two reports on disk share a session id |
| History.AllOrNothing | packages/dashboard/sync-api/src/sync_api/db.py:184-194 | a file is in the database with all its rows, whose (test, target) pairs are distinct, or with none |
| History.SoloImportableExactly | packages/dashboard/sync-api/src/sync_api/main.py:735-745 | a solo report is imported exactly when it has rows, its values fit and no (test, target) pair repeats |
| Scoring.ProtocolReachability | packages/probe-core/src/censprobe_core/scoring.py:299-329 | the nested accumulation equals (OKs + half the handshake-onlys) over all entries, or 0.5 without entries |
| Scoring.SortedSorts | packages/probe-core/src/censprobe_core/scoring.py:352 | the sorted list is ordered and a permutation |
| Scoring.MedianPermuted | packages/probe-core/src/censprobe_core/scoring.py:332-369 | the element at the middle depends only on how many values lie below and at each point |
| Scoring.ScoresInRange | packages/probe-core/src/censprobe_core/scoring.py:155-226 | all four scores lie in 0..100 for any monotone rounding that fixes 0 and 100 |
| Scoring.ClampsNeverAct | packages/probe-core/src/censprobe_core/scoring.py:155-211 | with non-negative weights adding up to at most one per score, the clamps never act |
| Scoring.ScoresPermuted | packages/probe-core/src/censprobe_core/scoring.py:90-232 | permuting solo results or reports changes no score |
| Scoring.SoloOkNeverLowers | packages/probe-core/src/censprobe_core/scoring.py:267-296 | a solo result of any verdict that becomes OK lowers no score |
| Scoring.ListenerOkNeverLowers | packages/probe-core/src/censprobe_core/scoring.py:299-329 | a listener verdict that becomes OK lowers no score |
| Scoring.FasterNeverLowers | packages/probe-core/src/censprobe_core/scoring.py:332-369 | round trips that get shorter, any number of them, lower no score |
| ScoreInputs.AxesExactly | packages/probe-core/src/censprobe_core/scoring.py:136-142 | uplink is the portion of OK among the telling http results, tcp that of the tcp ones, and throttling is a THROTTLED throttling result |
| ScoreInputs.LatencyIsMiddle | packages/probe-core/src/censprobe_core/scoring.py:332-369 | latency is the level of the middle tcp round trip, or a half without any |
| ScoreInputs.LevelOf | packages/probe-core/src/censprobe_core/scoring.py:332-369 | the six levels of a round trip |
| ScoreInputs.ExitRestsOn | packages/probe-core/src/censprobe_core/scoring.py:181-195 | the exit score rests on the http and throttling results alone |
| ScoreInputs.RelayRestsOn | packages/probe-core/src/censprobe_core/scoring.py:197-211 | the relay score rests on the tcp results alone |
| ScoreInputs.EntryRestsOn | packages/probe-core/src/censprobe_core/scoring.py:155-174 | the entry score rests on the http results, the tcp round trips and the listener verdicts |
| ScoreInputs.ExitAtEnds | packages/probe-core/src/censprobe_core/scoring.py:181-195 | with every http result OK the exit score is full, or loses a fifth of the censorship weight to throttling; with none it is zero |
| ScoreInputs.RelayAtEnds | packages/probe-core/src/censprobe_core/scoring.py:197-211 | with every tcp result OK and a middle round trip under 10 ms the relay score is full; with none OK and one of 500 ms or more it is zero |
| ScoreInputs.WeightsPick | packages/probe-core/src/censprobe_core/scoring.py:155-211 | every weight has its axis |
| ScoreInputs.OverallIsMean | packages/probe-core/src/censprobe_core/scoring.py:219-226 | the overall score is the mean of the three, or of exit and relay without a client report |
| ServerScores.ScoreCard.Combine | packages/probe-core/src/censprobe_core/scoring.py:155-226 | three clamped rounded scores, and the mean over three or, without sessions, two of them |
| ServerScores.ComputeScores | packages/probe-core/src/censprobe_core/scoring.py:90-232 | the filled score card: scores and recommendation of the specification, the shown axes, and the methods of blocking results, each once, in order |
| ServerScores.IntegrityExactly | packages/probe-core/src/censprobe_core/scoring.py:105-111 | a shown percentage is the portion of its category, absent where it has no result |
| ServerScores.HealthIsFirst | packages/probe-core/src/censprobe_core/scoring.py:118-124 | the shown health is that of the first health test |
| Recommendations.ResolvePriorityOrder | packages/probe-core/src/censprobe_core/scoring.py:372-384 | listed valid names in the priority order, then the omitted ones |
| Recommendations.SoloBlockedProtocols | packages/probe-core/src/censprobe_core/scoring.py:387-402 | exactly the names some BLOCKED protocol probe has in its method |
| Recommendations.ListenerVerdicts | packages/probe-core/src/censprobe_core/scoring.py:405-420 | exactly the unblocked names with an OK, and those with a HANDSHAKE_ONLY |
| Recommendations.RecommendProtocols | packages/probe-core/src/censprobe_core/scoring.py:423-452 | the recommended list equals the specification, the lazy duplicate check included |
| Recommendations.RecommendedExactly | packages/probe-core/src/censprobe_core/scoring.py:423-452 | recommended if and only if unblocked and confirmed; with the suffix if and only if only the handshake was; without listener data if and only if unblocked |
| Recommendations.RecommendedInPriorityOrder | packages/probe-core/src/censprobe_core/scoring.py:423-452 | names recommended alike, plain or with the suffix, stand in priority order, with listener reports or without, and every confirmed one precedes every handshake-only one |
| Migrations.Table.Execute | packages/dashboard/sync-api/src/sync_api/db.py:457-462 | one UPDATE rewrites exactly the rows it matches, and its count is zero exactly when it matches none |
| Migrations.Table.Migrate | packages/dashboard/sync-api/src/sync_api/db.py:457-462 | the updates in order; a table none of them matches stays as it is |
| Migrations.MigratedInOrder | packages/dashboard/sync-api/src/sync_api/db.py:356-406 | what the nine ordered updates come to for one row |
| Migrations.MigratedOnce | packages/dashboard/sync-api/src/sync_api/db.py:345-348 | a migrated row of either table matches none of its updates, so a second run changes no row |
| Migrations.TranslatedOnce | packages/dashboard/sync-api/src/sync_api/parser.py:54-62 | translating twice is translating once, and neither updates nor translation disturb what the other produced |
| Migrations.UpdatesAgreeExactly | packages/dashboard/sync-api/src/sync_api/parser.py:42-62 | updates and translation give the same row if and only if it is neither an old throttling verdict without a method nor any old verdict with an empty method |
| Migrations.ProtocolVerdictsAgree | packages/dashboard/sync-api/src/sync_api/db.py:409-423 | protocol verdicts always agree |
| Migrations.BackfillsMustComeFirst | packages/dashboard/sync-api/src/sync_api/db.py:371-406 | collapsing the verdicts first would lose every missing method |
| Config.AcceptedCovers | packages/probe-core/src/censprobe_core/config.py:227-309 | in an accepted configuration every enabled protocol is known, has a usable port and, where used, a host name |
| Config.AcceptedExactly | packages/probe-core/src/censprobe_core/config.py:227-309 | exactly which configurations are accepted |
| Generator.MagicHeaders | packages/listener/src/censprobe_listener/credentials.py:377-395 | the rejection loop yields the first four distinct 32-bit values that are not WireGuard types |
| Generator.ResponsePadding | packages/listener/src/censprobe_listener/credentials.py:207-210 | the rejection loop yields the first S2 with S1 + 56 != S2 |
| Generator.ServerCredentials.ApplyPorts | packages/listener/src/censprobe_listener/credentials.py:134-150 | every port is stamped, or the call fails exactly when a name is unknown |
| Generator.ServerCredentials.Fill | packages/listener/src/censprobe_listener/credentials.py:153-252 | every field, the server-private halves included, holds what configuration and draws call for |
| Generator.GenerateCredentials | packages/listener/src/censprobe_listener/credentials.py:153-252 | fails exactly on an unknown port name, a key tool that fails or a fake-TLS host name that is not ASCII, the first in that order |
| Generator.JunkKeepsMessagesApart | packages/listener/src/censprobe_listener/credentials.py:197-210 | H1..H4 are distinct 32-bit values outside 1..4, the two handshakes differ in length, and all ranges hold |
| Generator.AcceptedMayNotGenerate | packages/listener/src/censprobe_listener/credentials.py:236-241 | for an accepted configuration generation fails exactly when a key tool fails or a fake-TLS host name is not ASCII |
| Generator.CredentialsRoundTrip | packages/listener/src/censprobe_listener/credentials.py:316-349 | for every accepted, encodable configuration and every draw: print then parse gives the enabled list and every client-visible field unchanged |
| Generator.PrivateHalvesStayHome | packages/listener/src/censprobe_listener/credentials.py:255-349 | the document is the same whatever the private keys of the server are |
| Generator.DeliveredGroupsFit | packages/listener/src/censprobe_listener/credentials.py:153-252 | every enabled protocol is delivered its own port and keys that belong together, and everything else as drawn for it |
| Generator.DeliveredSecretsRead | packages/listener/src/censprobe_listener/credentials.py:228-250 | the delivered secrets read back as the generated key and host name |
| Generator.Deliver | packages/probe-core/src/censprobe_core/credentials_reader.py:210-282 | generated, written, read and equal, from configuration to client |
| Credentials.WriteDocument | packages/listener/src/censprobe_listener/credentials.py:316-349 | the document is the header and one section per enabled known protocol |
| Credentials.ClientCredentials.FillSections | packages/probe-core/src/censprobe_core/credentials_reader.py:233-253 | the section parsers in their order, stopping at the first failure |
| Credentials.ClientCredentials.Fill | packages/probe-core/src/censprobe_core/credentials_reader.py:210-282 | the parsed credentials or the first error of the specification |
| Credentials.SectionRoundTrip | packages/probe-core/src/censprobe_core/credentials_reader.py:98-207 | a section reads back as the group it was written from exactly when its port is usable and nothing is empty |
| Credentials.SectionReadsExactly | packages/probe-core/src/censprobe_core/credentials_reader.py:98-207 | any section at all reads as a group exactly when that is the kind of the protocol, full, and the section says everything it holds |
| Credentials.DocumentReadsExactly | packages/probe-core/src/censprobe_core/credentials_reader.py:210-282 | any document at all is accepted exactly when it lists known names that all have a section, and every section of a known protocol reads; the client then holds those groups and no other |
| Credentials.DocumentRoundTrip | packages/probe-core/src/censprobe_core/credentials_reader.py:210-282 | a document reads back exactly when every enabled group is full, and then gives the enabled groups and nothing else |
| Secrets.HexRoundTrip | packages/probe-core/src/censprobe_core/protocol_probes.py:1499 | hexadecimal text reads back |
| Secrets.FakeTlsSecretRoundTrip | packages/probe-core/src/censprobe_core/protocol_probes.py:1490-1513 | an ee secret reads back as its 16-byte key and host name |
| Secrets.FakeTlsSecretExactly | packages/probe-core/src/censprobe_core/protocol_probes.py:1490-1513 | which texts are ee secrets; the empty-name error never arises |
| Secrets.OriginalSecretRoundTrip | packages/probe-core/src/censprobe_core/protocol_probes.py:1963-1982 | a dd secret reads back as its key |
| Secrets.BareSecretExactly | packages/probe-core/src/censprobe_core/protocol_probes.py:1963-1982 | 32 bare hex digits are a secret if and only if they do not begin with dd in either case; else 15 bytes are left |

## Left out

- Sockets, subprocesses, asyncio scheduling, real clocks and randomness: their observations are inputs; each locked section and each event operation is one atomic step.
- AES, SHA-256, HMAC and TLS internals, certificate generation and pinning: function parameters, or not part of this model.
- YAML, JSON, SQLAlchemy and Postgres: a document is a map, the database is keyed rows with unique keys, cascade and savepoint rollback; that dumping and loading YAML preserves a document is taken for granted.
- The contents of `meta.yaml`, of which only whether a missing run can be created from it matters here, and exceptions while loading reports for scoring.
- Reports that are rewritten under the same name: the history theorems are for write-once reports, and for disks whose files have settled when the last pass runs.
- History.HistoryIndependence: is about result and session rows only, because scores do depend on the history, which `Rescoring.ScoresDependOnHistory` shows.
- History.LatestReportIsChampion: is for session ids whose reports all have distinct start times; the exact condition for any other mixture is the existence of a champion in `History.SettlesIffChampions`.
- History.IndependentIffChampions: leaves open the session ids that hold both a tie and a report without start time, where `History.IndependentNeedsOneUnbeaten` and `History.HistoryIndependence` bound the condition from both sides.
- Reconciler.Importer.ImportListenerReport: works on values of one run rather than on database objects, so it does not capture the session's identity map or flush order.
- Obfuscated2.Exchange: takes the connected stream as given; opening it, and the outer verdict texts, are not modelled.
- Connection.ProbeMtprotoProxy: starts from the parsed secret and an open connection.
- HandshakeLog.MtgMonitor.MonitorOutput: lower-casing maps the characters whose lower case has an ASCII letter; other letters are left as they are, which no marker can tell.
- Scoring.ScoresInRange: takes one-decimal rounding as any monotone function fixing 0 and 100, because binary floating point is not the point; all arithmetic is over the reals.
- Generator.ServerCredentials.Fill: sets the fields of one key set as one value, and takes a failing key tool to fail in all its calls.
- Responders.StopResponders: stops the responders one after the other, which stands for the parallel tasks because they share no state; the removal of one rule from the two families is one step.
- Session.ParseRates: starts from the decoded body; decoding bytes as UTF-8 and JSON is not part of this model.
- ProxyConf.ParseUpstreams: knows the decimal digits of Unicode 14, and has no limit on their number, where Python stops at 4300.
- WirePoll.EchoServer.ServeThroughput: starts from the parsed number of bytes, and keeps the response itself out.
- The client's retry loop around pinned requests, external-IP detection, ipapi enrichment, link cleanup and kernel RTT reading.
- The OpenVPN, WireGuard, Shadowsocks, VLESS and Hysteria client probes, the measurement modules, rclone synchronisation, tables, banners, note texts, read endpoints and dashboards.
