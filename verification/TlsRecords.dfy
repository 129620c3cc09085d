/** The byte stream a probe reads from, and the demultiplexer that strips TLS
    record framing off it. */
module TlsRecords {
  import opened Wrappers
  import opened Bytes
  import opened Sequences

  const HEADER_LEN := 5
  const APP_DATA: Byte := 0x17
  const MAX_RECORD := 16384

  // What follows the last byte the peer sends: end of stream, or silence that
  // outlasts every read timeout.
  datatype StreamEnd = Closed | Stalled

  datatype Source = Source(data: Bytes, end: StreamEnd)

  datatype ReadError = Incomplete | TimedOut

  datatype Failure =
    | TruncatedLen
    | LenTimeout
    | BodyTimeout
    | UnexpectedRecordType(kind: Byte)
    | BadRecordLen(len: nat)
    | TruncatedRecordBody(expected: nat)
    | TruncatedBody(expected: nat)
    | BadOuterLen(len: nat)
    | ResPqTruncated(len: nat)
    | BadAuthKeyId
    | BadMsgLen(len: nat)
    | BadTlId(id: nat)
    | NonceMismatch
    | WriteFailed

  // `readexactly`: all `n` bytes, or nothing.  Hitting the end of the stream
  // discards the partial bytes; a timeout leaves them in place.
  function ReadRaw(src: Source, n: nat): (r: (Result<Bytes, ReadError>, Source))
    ensures r.0.Ok? <==> n <= |src.data|
    ensures r.0.Ok? ==> |r.0.value| == n && r.0.value + r.1.data == src.data
    ensures r.1.end == src.end && |r.1.data| <= |src.data|
  {
    if n <= |src.data| then (Ok(src.data[..n]), src.(data := src.data[n..]))
    else match src.end
      case Closed => (Err(Incomplete), src.(data := []))
      case Stalled => (Err(TimedOut), src)
  }

  class StreamReader {
    var data: Bytes
    const end: StreamEnd

    constructor (data: Bytes, end: StreamEnd)
      ensures this.data == data && this.end == end
    {
      this.data := data;
      this.end := end;
    }

    ghost function View(): Source
      reads this
    {
      Source(data, end)
    }

    method ReadExactly(n: nat) returns (r: Result<Bytes, ReadError>)
      modifies this
      ensures (r, View()) == ReadRaw(old(View()), n)
    {
      if n <= |data| {
        r := Ok(data[..n]);
        data := data[n..];
      } else if end == Closed {
        r := Err(Incomplete);
        data := [];
      } else {
        r := Err(TimedOut);
      }
    }
  }

  // ---- the record demultiplexer ----

  datatype Inner = Inner(buf: Bytes, src: Source)

  function RecordLen(header: Bytes): (n: nat)
    requires |header| == HEADER_LEN
    ensures n < 0x1_0000
  {
    FromU16(header[3..5])
  }

  // One record off the wire: its payload, or the failure the caller reports.
  // `quiet` says that no inner byte is buffered yet.
  function ReadRecord(src: Source, quiet: bool): (r: (Result<Bytes, Failure>, Source))
    ensures r.0.Ok? ==> 1 <= |r.0.value| <= MAX_RECORD && |r.1.data| < |src.data|
    ensures r.1.end == src.end
  {
    var (header, afterHeader) := ReadRaw(src, HEADER_LEN);
    match header
    case Err(Incomplete) => (Err(TruncatedLen), afterHeader)
    case Err(TimedOut) => (Err(if quiet then LenTimeout else BodyTimeout), afterHeader)
    case Ok(h) =>
      if h[0] != APP_DATA then (Err(UnexpectedRecordType(h[0])), afterHeader)
      else if RecordLen(h) == 0 || RecordLen(h) > MAX_RECORD then (Err(BadRecordLen(RecordLen(h))), afterHeader)
      else
        var (body, afterBody) := ReadRaw(afterHeader, RecordLen(h));
        match body
        case Err(Incomplete) => (Err(TruncatedRecordBody(RecordLen(h))), afterBody)
        case Err(TimedOut) => (Err(BodyTimeout), afterBody)
        case Ok(b) => (Ok(b), afterBody)
  }

  function Deliver(st: Inner, n: nat): (r: (Result<Bytes, Failure>, Inner))
    ensures r.1.src.end == st.src.end
    decreases |st.src.data|
  {
    if n <= |st.buf| then (Ok(st.buf[..n]), st.(buf := st.buf[n..]))
    else
      var (record, src) := ReadRecord(st.src, st.buf == []);
      match record
      case Err(e) => (Err(e), st.(src := src))
      case Ok(body) => Deliver(Inner(st.buf + body, src), n)
  }

  class TlsRecordReader {
    const reader: StreamReader
    var buf: Bytes

    constructor (reader: StreamReader)
      ensures this.reader == reader && buf == []
    {
      this.reader := reader;
      buf := [];
    }

    ghost function View(): Inner
      reads this, reader
    {
      Inner(buf, reader.View())
    }

    /** `peak` is the largest size the buffer reaches during the call. */
    method ReadInner(n: nat) returns (r: Result<Bytes, Failure>, ghost peak: nat)
      modifies this, reader
      ensures (r, View()) == Deliver(old(View()), n)
      ensures peak < n + MAX_RECORD || peak == |old(buf)|
      ensures r.Ok? ==> |r.value| == n && (|buf| < MAX_RECORD || |buf| <= |old(buf)|)
      ensures r.Err? ==> |buf| < n
    {
      peak := |buf|;
      while |buf| < n
        invariant Deliver(View(), n) == Deliver(old(View()), n)
        invariant |buf| <= peak
        invariant peak < n + MAX_RECORD || peak == |old(buf)|
        invariant (|buf| < n + MAX_RECORD && n > 0) || |buf| == |old(buf)|
        decreases |reader.data|
      {
        ghost var src0 := reader.View();
        var header := reader.ReadExactly(HEADER_LEN);
        if header.Err? {
          return Err(match header.error
            case Incomplete => TruncatedLen
            case TimedOut => if buf == [] then LenTimeout else BodyTimeout), peak;
        }
        var h := header.value;
        if h[0] != APP_DATA {
          return Err(UnexpectedRecordType(h[0])), peak;
        }
        var len := RecordLen(h);
        if len == 0 || len > MAX_RECORD {
          return Err(BadRecordLen(len)), peak;
        }
        var body := reader.ReadExactly(len);
        if body.Err? {
          return Err(match body.error
            case Incomplete => TruncatedRecordBody(len)
            case TimedOut => BodyTimeout), peak;
        }
        assert ReadRecord(src0, buf == []) == (Ok(body.value), reader.View());
        buf := buf + body.value;
        peak := |buf|;
      }
      r := Ok(buf[..n]);
      buf := buf[n..];
    }
  }

  // ---- honest streams ----

  function Frame(payload: Bytes): Bytes
    requires |payload| <= MAX_RECORD
  {
    [APP_DATA, 3, 3] + U16(|payload|) + payload
  }

  ghost predicate WellSized(records: seq<Bytes>)
  {
    forall i :: 0 <= i < |records| ==> 1 <= |records[i]| <= MAX_RECORD
  }

  function Wire(records: seq<Bytes>): Bytes
    requires WellSized(records)
  {
    if records == [] then [] else Frame(records[0]) + Wire(records[1..])
  }

  function Flat(records: seq<Bytes>): Bytes
  {
    if records == [] then [] else records[0] + Flat(records[1..])
  }

  // `st` is a state in which exactly `rest` of the payload is still to be delivered.
  ghost predicate Carries(st: Inner, records: seq<Bytes>, rest: Bytes)
  {
    && WellSized(records)
    && st.src.data == Wire(records)
    && st.buf + Flat(records) == rest
  }

  lemma ReadFramed(header: Bytes, body: Bytes, rest: Bytes, end: StreamEnd, quiet: bool)
    requires |header| == HEADER_LEN && header[0] == APP_DATA && RecordLen(header) == |body| && 1 <= |body| <= MAX_RECORD
    ensures ReadRecord(Source(header + (body + rest), end), quiet) == (Ok(body), Source(rest, end))
  {
    CutAt(header, body + rest);
    CutAt(body, rest);
  }

  lemma ReadRecordBefore(records: seq<Bytes>, after: Bytes, end: StreamEnd, quiet: bool)
    requires WellSized(records) && records != []
    ensures ReadRecord(Source(Wire(records) + after, end), quiet)
         == (Ok(records[0]), Source(Wire(records[1..]) + after, end))
  {
    var header := [APP_DATA, 3, 3] + U16(|records[0]|);
    assert header[3..5] == U16(|records[0]|);
    Regroup(header, records[0], Wire(records[1..]) + after);
    assert Wire(records) + after == header + (records[0] + (Wire(records[1..]) + after));
    ReadFramed(header, records[0], Wire(records[1..]) + after, end, quiet);
  }

  lemma ReadRecordOfWire(records: seq<Bytes>, end: StreamEnd, quiet: bool)
    requires WellSized(records) && records != []
    ensures ReadRecord(Source(Wire(records), end), quiet) == (Ok(records[0]), Source(Wire(records[1..]), end))
  {
    assert Wire(records) + [] == Wire(records) && Wire(records[1..]) + [] == Wire(records[1..]);
    ReadRecordBefore(records, [], end, quiet);
  }

  // A whole record of application data, of any version, comes first.
  ghost predicate RecordFirst(data: Bytes, body: Bytes, rest: Bytes)
  {
    && 1 <= |body| <= 16384
    && exists v: Byte, w: Byte :: data == [0x17, v, w, |body| / 256, |body| % 256] + (body + rest)
  }

  lemma HeaderBytes(data: Bytes)
    requires |data| >= 5
    ensures var n := RecordLen(data[..5]);
      n == 256 * data[3] as int + data[4] as int && data[..5] == [data[0], data[1], data[2], n / 256, n % 256]
  {
    assert data[..5][3..5] == data[3..5];
  }

  lemma ReadIsFirst(src: Source, quiet: bool)
    requires ReadRecord(src, quiet).0.Ok?
    ensures RecordFirst(src.data, ReadRecord(src, quiet).0.value, ReadRecord(src, quiet).1.data)
  {
    var data, body, rest := src.data, ReadRecord(src, quiet).0.value, ReadRecord(src, quiet).1.data;
    HeaderBytes(data);
    assert data[5..] == body + rest;
    assert data == data[..5] + data[5..];
  }

  lemma FirstIsRead(data: Bytes, body: Bytes, rest: Bytes, end: StreamEnd, quiet: bool)
    requires RecordFirst(data, body, rest)
    ensures ReadRecord(Source(data, end), quiet) == (Ok(body), Source(rest, end))
  {
    var v: Byte, w: Byte :| data == [0x17, v, w, |body| / 256, |body| % 256] + (body + rest);
    var header := [0x17, v, w, |body| / 256, |body| % 256];
    assert header[3..5] == U16(|body|);
    ReadFramed(header, body, rest, end, quiet);
  }

  /** On any stream: a record is read if and only if it is a whole one of application data, and
      then exactly its payload is delivered and exactly what follows it is left. */
  lemma ReadRecordExactly(src: Source, quiet: bool, body: Bytes, left: Source)
    ensures ReadRecord(src, quiet) == (Ok(body), left) <==>
              left.end == src.end && RecordFirst(src.data, body, left.data)
  {
    if left.end == src.end && RecordFirst(src.data, body, left.data) {
      FirstIsRead(src.data, body, left.data, src.end, quiet);
    } else if ReadRecord(src, quiet) == (Ok(body), left) {
      ReadIsFirst(src, quiet);
    }
  }

  /** What else has a whole header is refused: by its type, an alert say, and then by its
      length. */
  lemma OtherRecordsRefused(src: Source, quiet: bool)
    requires |src.data| >= 5
    ensures var kind, n := src.data[0], 256 * src.data[3] as int + src.data[4] as int;
      && (kind != 0x17 ==> ReadRecord(src, quiet).0 == Err(UnexpectedRecordType(kind)))
      && (kind == 0x17 && !(1 <= n <= 16384) ==> ReadRecord(src, quiet).0 == Err(BadRecordLen(n)))
  {
    HeaderBytes(src.data);
  }

  /** One call on an honest stream: it succeeds exactly when enough payload is
      left, delivers the next `n` bytes and nothing else, and whatever it does not
      deliver is still buffered or still on the wire. */
  lemma {:induction false} DeliverRefinesFlat(st: Inner, records: seq<Bytes>, rest: Bytes, n: nat)
    returns (left: seq<Bytes>)
    requires Carries(st, records, rest)
    ensures var (r, st') := Deliver(st, n);
      && (r.Ok? <==> n <= |rest|)
      && (r.Ok? ==> r.value == rest[..n] && Carries(st', left, rest[n..]))
      && (r.Err? ==> Carries(st', left, rest) && left == [])
    decreases |records|
  {
    if n <= |st.buf| {
      left := records;
      assert st.buf[..n] == rest[..n];
      assert st.buf[n..] + Flat(records) == rest[n..];
    } else if records == [] {
      left := [];
      assert st.buf == rest;
    } else {
      ReadRecordOfWire(records, st.src.end, st.buf == []);
      var st' := Inner(st.buf + records[0], Source(Wire(records[1..]), st.src.end));
      assert st'.buf + Flat(records[1..]) == rest;
      left := DeliverRefinesFlat(st', records[1..], rest, n);
    }
  }

  // ---- runs of many calls ----

  // ---- a stream that ends inside a record ----

  // Some, but not all, of a record of a permitted length; nothing, perhaps.
  ghost predicate Begun(frag: Bytes)
  {
    exists p: Bytes :: 1 <= |p| <= MAX_RECORD && |frag| < |Frame(p)| && frag == Frame(p)[..|frag|]
  }

  // As `Carries`, with more bytes after the last record.
  ghost predicate CarriesBefore(st: Inner, records: seq<Bytes>, after: Bytes, rest: Bytes)
  {
    && WellSized(records)
    && st.src.data == Wire(records) + after
    && st.buf + Flat(records) == rest
  }

  lemma {:induction false} DeliverBefore(st: Inner, records: seq<Bytes>, after: Bytes, rest: Bytes, n: nat)
    returns (left: seq<Bytes>)
    requires CarriesBefore(st, records, after, rest) && n <= |rest|
    ensures var (r, st') := Deliver(st, n);
      r == Ok(rest[..n]) && CarriesBefore(st', left, after, rest[n..])
    decreases |records|
  {
    if n <= |st.buf| {
      left := records;
      assert st.buf[..n] == rest[..n];
      assert st.buf[n..] + Flat(records) == rest[n..];
    } else {
      ReadRecordBefore(records, after, st.src.end, st.buf == []);
      var st' := Inner(st.buf + records[0], Source(Wire(records[1..]) + after, st.src.end));
      assert st'.buf + Flat(records[1..]) == rest;
      left := DeliverBefore(st', records[1..], after, rest, n);
    }
  }

  // The header of a begun record is that of the whole one, and its body is short.
  lemma ReadBegun(frag: Bytes, quiet: bool)
    requires Begun(frag)
    ensures ReadRecord(Source(frag, Stalled), quiet).0
         == Err(if quiet && |frag| < HEADER_LEN then LenTimeout else BodyTimeout)
  {
    var p :| 1 <= |p| <= MAX_RECORD && |frag| < |Frame(p)| && frag == Frame(p)[..|frag|];
    if |frag| >= HEADER_LEN {
      var header := frag[..HEADER_LEN];
      assert header == [APP_DATA, 3, 3] + U16(|p|);
      assert header[3..5] == U16(|p|);
      assert |frag[HEADER_LEN..]| < |p|;
    }
  }

  /** A call that outruns the payload stalls; whether that is taken for silence before the first
      byte depends on the payload left and on the header of the record that was begun. */
  lemma {:induction false} DeliverStalls(st: Inner, records: seq<Bytes>, frag: Bytes, rest: Bytes, n: nat)
    requires CarriesBefore(st, records, frag, rest) && Begun(frag) && st.src.end == Stalled && |rest| < n
    ensures Deliver(st, n).0 == Err(if rest == [] && |frag| < HEADER_LEN then LenTimeout else BodyTimeout)
    decreases |records|
  {
    if records == [] {
      assert st.buf == rest && st.src.data == frag;
      ReadBegun(frag, st.buf == []);
    } else {
      ReadRecordBefore(records, frag, st.src.end, st.buf == []);
      var st' := Inner(st.buf + records[0], Source(Wire(records[1..]) + frag, st.src.end));
      assert st'.buf + Flat(records[1..]) == rest;
      DeliverStalls(st', records[1..], frag, rest, n);
    }
  }

  // ---- runs of reads ----

  function Answer(r: Result<Bytes, Failure>): Option<Bytes>
  {
    if r.Ok? then Some(r.value) else None
  }

  function ReadMany(st: Inner, ns: seq<nat>): (r: (seq<Option<Bytes>>, Inner))
    ensures |r.0| == |ns|
    decreases |ns|
  {
    if ns == [] then ([], st)
    else
      var (first, st') := Deliver(st, ns[0]);
      var (others, last) := ReadMany(st', ns[1..]);
      ([Answer(first)] + others, last)
  }

  // The same calls answered by a flat byte string: no records, no buffer.
  function FlatReads(rest: Bytes, ns: seq<nat>): (r: (seq<Option<Bytes>>, Bytes))
    ensures |r.0| == |ns|
    decreases |ns|
  {
    if ns == [] then ([], rest)
    else
      var (first, rest') := if ns[0] <= |rest| then (Some(rest[..ns[0]]), rest[ns[0]..]) else (None, rest);
      var (others, last) := FlatReads(rest', ns[1..]);
      ([first] + others, last)
  }

  function Delivered(answers: seq<Option<Bytes>>): Bytes
  {
    if answers == [] then []
    else (if answers[0].Some? then answers[0].value else []) + Delivered(answers[1..])
  }

  lemma DeliveredFirst(first: Option<Bytes>, others: seq<Option<Bytes>>)
    ensures Delivered([first] + others) == (if first.Some? then first.value else []) + Delivered(others)
  {
    assert ([first] + others)[1..] == others;
  }

  lemma FlatReadsStep(rest: Bytes, ns: seq<nat>, n: nat)
    requires ns != [] && n == (if ns[0] <= |rest| then ns[0] else 0)
    ensures var (others, last) := FlatReads(rest[n..], ns[1..]);
      FlatReads(rest, ns) == ([if ns[0] <= |rest| then Some(rest[..n]) else None] + others, last)
  {
    assert rest[0..] == rest;
  }

  // What one run yields altogether: what was delivered, then what was not.
  function Yield(rest: Bytes, ns: seq<nat>): Bytes
  {
    Delivered(FlatReads(rest, ns).0) + FlatReads(rest, ns).1
  }

  lemma YieldStep(rest: Bytes, ns: seq<nat>, n: nat)
    requires ns != [] && n == (if ns[0] <= |rest| then ns[0] else 0)
    ensures Yield(rest, ns) == rest[..n] + Yield(rest[n..], ns[1..])
  {
    var (others, last) := FlatReads(rest[n..], ns[1..]);
    FlatReadsStep(rest, ns, n);
    DeliveredFirst(if ns[0] <= |rest| then Some(rest[..n]) else None, others);
    Regroup(rest[..n], Delivered(others), last);
  }

  lemma {:induction false} YieldIsAll(rest: Bytes, ns: seq<nat>)
    ensures Yield(rest, ns) == rest
    decreases |ns|
  {
    if ns != [] {
      var n := if ns[0] <= |rest| then ns[0] else 0;
      YieldStep(rest, ns, n);
      YieldIsAll(rest[n..], ns[1..]);
      assert rest[..n] + rest[n..] == rest;
    }
  }

  /** Over any run, what was delivered, in order, followed by what was not, is the
      payload: the flat stream loses, repeats and reorders nothing. */
  lemma FlatReadsConserve(rest: Bytes, ns: seq<nat>)
    ensures Delivered(FlatReads(rest, ns).0) + FlatReads(rest, ns).1 == rest
  {
    YieldIsAll(rest, ns);
  }

  /** The reader refines a flat stream: for every segmentation and every sequence
      of read sizes, its answers are the flat stream's answers, and what it still
      holds or has not read is what the flat stream has left. */
  lemma {:induction false} ReaderRefinesFlatStream(st: Inner, records: seq<Bytes>, rest: Bytes, ns: seq<nat>)
    returns (left: seq<Bytes>)
    requires Carries(st, records, rest)
    ensures ReadMany(st, ns).0 == FlatReads(rest, ns).0
    ensures Carries(ReadMany(st, ns).1, left, FlatReads(rest, ns).1)
    decreases |ns|
  {
    if ns == [] {
      left := records;
    } else {
      var left' := DeliverRefinesFlat(st, records, rest, ns[0]);
      var rest' := if ns[0] <= |rest| then rest[ns[0]..] else rest;
      left := ReaderRefinesFlatStream(Deliver(st, ns[0]).1, left', rest', ns[1..]);
    }
  }

  /** Conservation for the reader itself: delivered, buffered and unread bytes
      make up the payload after every run. */
  lemma ReaderConserves(records: seq<Bytes>, end: StreamEnd, ns: seq<nat>) returns (left: seq<Bytes>)
    requires WellSized(records)
    ensures WellSized(left)
    ensures var (answers, st) := ReadMany(Inner([], Source(Wire(records), end)), ns);
      && st.src.data == Wire(left)
      && Delivered(answers) + st.buf + Flat(left) == Flat(records)
  {
    var start := Inner([], Source(Wire(records), end));
    left := ReaderRefinesFlatStream(start, records, Flat(records), ns);
    FlatReadsConserve(Flat(records), ns);
    var (answers, st) := ReadMany(start, ns);
    assert Delivered(answers) + st.buf + Flat(left) == Delivered(answers) + (st.buf + Flat(left));
  }

  /** Two segmentations of one payload are indistinguishable to the caller. */
  lemma SegmentationIsInvisible(one: seq<Bytes>, two: seq<Bytes>, end: StreamEnd, ns: seq<nat>)
    requires WellSized(one) && WellSized(two) && Flat(one) == Flat(two)
    ensures ReadMany(Inner([], Source(Wire(one), end)), ns).0 == ReadMany(Inner([], Source(Wire(two), end)), ns).0
  {
    var _ := ReaderRefinesFlatStream(Inner([], Source(Wire(one), end)), one, Flat(one), ns);
    var _ := ReaderRefinesFlatStream(Inner([], Source(Wire(two), end)), two, Flat(two), ns);
  }
}
