/** The verdict vocabulary and the derivation of a protocol's verdict from what a
    responder counted. */
module Models {
  import opened Wrappers

  datatype Verdict = OK | BLOCKED | HANDSHAKE_ONLY | SERVER_REFUSED | ANOMALY | INCONCLUSIVE | ERROR | THROTTLED

  // The usability ladder: everything that is neither OK nor HANDSHAKE_ONLY is at the bottom.
  function Rank(v: Verdict): nat
  {
    match v
    case OK => 2
    case HANDSHAKE_ONLY => 1
    case _ => 0
  }

  // What a responder reports for the client's cross-check.
  datatype LiveSnapshot = LiveSnapshot(
    handshakeCount: nat,
    dataTransferOk: bool,
    dataPackets: Option<nat>,
    bytesReceived: Option<nat>,
    selfTestOk: Option<bool>,
    dcReachOk: Option<bool>,
    countersAvailable: Option<bool>)

  // An entry of the committed snapshot: a reading, or the marker left when taking it raised.
  datatype SnapshotEntry = Reading(snap: LiveSnapshot) | Failed

  class ProtocolResult {
    var verdict: Verdict
    const handshakeCount: nat
    const dataTransferOk: bool

    constructor (handshakeCount: nat, dataTransferOk: bool)
      ensures this.handshakeCount == handshakeCount && this.dataTransferOk == dataTransferOk
      ensures verdict == BLOCKED
    {
      this.handshakeCount := handshakeCount;
      this.dataTransferOk := dataTransferOk;
      verdict := BLOCKED;
    }

    /** Derives the verdict, then lowers it to `capAt` when it ranks above. */
    method Finalize(capAt: Option<Verdict>, countersAvailable: Option<bool>)
      modifies this
      ensures verdict == Finalized(handshakeCount, dataTransferOk, capAt, countersAvailable)
    {
      if dataTransferOk {
        verdict := OK;
      } else if countersAvailable == Some(false) && handshakeCount > 0 {
        verdict := OK;
      } else if handshakeCount > 0 {
        verdict := HANDSHAKE_ONLY;
      } else {
        verdict := BLOCKED;
      }
      if capAt.Some? && Rank(verdict) > Rank(capAt.value) {
        verdict := capAt.value;
      }
    }
  }

  function Derived(handshakes: nat, dataOk: bool, countersAvailable: Option<bool>): Verdict
  {
    if dataOk || (countersAvailable == Some(false) && handshakes > 0) then OK
    else if handshakes > 0 then HANDSHAKE_ONLY
    else BLOCKED
  }

  function Capped(v: Verdict, capAt: Option<Verdict>): (r: Verdict)
    ensures r == v || (capAt == Some(r) && Rank(r) < Rank(v))
    ensures capAt.Some? ==> Rank(r) <= Rank(capAt.value)
  {
    if capAt.Some? && Rank(v) > Rank(capAt.value) then capAt.value else v
  }

  function Finalized(handshakes: nat, dataOk: bool, capAt: Option<Verdict>, countersAvailable: Option<bool>): Verdict
  {
    Capped(Derived(handshakes, dataOk, countersAvailable), capAt)
  }

  /** More evidence never lowers the rank: neither more handshakes nor data that
      has since arrived can turn a verdict into a worse one. */
  lemma FinalizedMonotone(h1: nat, d1: bool, h2: nat, d2: bool, capAt: Option<Verdict>, counters: Option<bool>)
    requires h1 <= h2 && (d1 ==> d2)
    ensures Rank(Finalized(h1, d1, capAt, counters)) <= Rank(Finalized(h2, d2, capAt, counters))
  {}
}
