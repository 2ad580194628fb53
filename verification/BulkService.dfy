/** The bulk file service between the wire and the transfer: which payloads it takes, what it makes of them, and what it
    answers to all others. */
module BulkService {
  import opened Bytes
  import opened Register16
  import opened FirmwareImage
  import opened BulkTransfer
  import opened BulkHost
  import FirmwareSession
  import Crc16

  lemma CrcBytes(c: Crc, high: Byte, low: Byte)
    requires c == Xor(Crc16.Top(high), low as Crc)
    ensures PutCrc(c) == [high, low]
  {
  }

  lemma CrcRoundTripBack(b: seq<Byte>)
    requires |b| == 2
    ensures PutCrc(FirmwareSession.ReadCrc(b)) == b
  {
    hide PutCrc, Xor, Crc16.Top;
    CrcBytes(FirmwareSession.ReadCrc(b), b[0], b[1]);
  }

  // ---- START ----

  predicate IsStart(r: StartRequest) {
    0 < r.fileType < FILE_TYPES && 0 < r.size < 0x1_0000_0000 && 0 < |r.name| < MAX_NAME
  }

  /** The payload has the length it says, with a name of 1 to 29 bytes. */
  predicate StartLength(p: seq<Byte>) { |p| >= 9 && p[7] as nat == |p| - 8 < MAX_NAME }

  lemma OneByte(b: Byte, n: nat)
    requires n == b as nat
    ensures n < 256 && (n % 256) as Byte == b
  {
    ByteRoundTripBack(b);
  }

  /** Only what a host can send is read: the payload is the one a host would send for what was read. */
  lemma StartIsEncoding(p: seq<Byte>)
    requires ParseStart(p).Good?
    ensures IsStart(ParseStart(p).value) && StartPayload(ParseStart(p).value) == p
  {
    hide GetU32, PutU32, PutCrc, FirmwareSession.ReadCrc;
    var r := ParseStart(p).value;
    OneByte(p[0], r.fileType);
    OneByte(p[7], |r.name|);
    U32RoundTripBack(p[1..5]);
    CrcRoundTripBack(p[5..7]);
    assert p == [p[0]] + p[1..5] + p[5..7] + [p[7]] + p[8..];
  }

  lemma StartReads(r: StartRequest)
    requires IsStart(r)
    ensures ParseStart(StartPayload(r)).Good?
  {
    hide StartPayload, ParseStart;
    StartReadsBack(r);
  }

  /** A START is read exactly if it is the encoding of a legal request; otherwise the answer tells a wrong length from a
      wrong type or size. */
  lemma StartReadIff(p: seq<Byte>)
    ensures ParseStart(p).Good? <==> exists r :: IsStart(r) && p == StartPayload(r)
    ensures ParseStart(p) == Bad(InvalidLength) <==> !StartLength(p)
    ensures ParseStart(p).Bad? ==> ParseStart(p).error in {InvalidLength, InvalidFrame}
  {
    hide GetU32, StartPayload, FirmwareSession.ReadCrc, IsStart;
    if ParseStart(p).Good? {
      StartIsEncoding(p);
    }
    if r :| IsStart(r) && p == StartPayload(r) {
      StartReads(r);
    }
  }

  /** The service starts a transfer exactly for a legal START that finds the target at rest; any other changes
      nothing. */
  lemma StartService(b: Bulk, p: seq<Byte>)
    requires Inv(b)
    ensures var (c, e) := ProcessStart(b, p);
            && (e == Fine <==> ParseStart(p).Good? && b.state == Idle)
            && (e == Fine ==>
                  var r := ParseStart(p).value;
                  && Inv(c) && c.state == Receiving && c.fileSize == r.size && c.fileCrc == r.crc
                  && c.frames == [] && c.file == [])
            && (e != Fine ==> c == b && e == if ParseStart(p).Good? then BulkStartFailed else ParseStart(p).error)
  {
    hide ParseStart, Flow, Marker;
    StartReadIff(p);
    if ParseStart(p).Good? {
      hide StartPayload;
      StartIsEncoding(p);
      StartKeeps(b, ParseStart(p).value.size, ParseStart(p).value.crc);
    }
  }

  // ---- DATA ----

  predicate IsFrame(f: Frame) { f.id < 0x1_0000_0000 && 0 < |f.data| <= MAX_FRAME }

  function FramePayload(f: Frame): seq<Byte> { PutU32(f.id) + PutU16(|f.data|) + PutCrc(f.crc) + f.data }

  lemma FrameIsEncoding(p: seq<Byte>)
    requires ParseData(p).Good?
    ensures IsFrame(ParseData(p).value) && FramePayload(ParseData(p).value) == p
  {
    hide GetU32, PutU32, PutCrc, GetU16, PutU16, FirmwareSession.ReadCrc;
    U32RoundTripBack(p[..4]);
    U16RoundTripBack(p[4..6]);
    CrcRoundTripBack(p[6..8]);
    assert p == p[..4] + p[4..6] + p[6..8] + p[8..];
  }

  lemma FrameReads(f: Frame)
    requires IsFrame(f)
    ensures ParseData(FramePayload(f)) == Good(f)
  {
    hide GetU32, PutU32, PutCrc, GetU16, PutU16, FirmwareSession.ReadCrc;
    U32RoundTrip(f.id);
    U16RoundTrip(|f.data|);
    CrcRoundTrip(f.crc);
    var p := FramePayload(f);
    assert p[..4] == PutU32(f.id) && p[4..6] == PutU16(|f.data|) && p[6..8] == PutCrc(f.crc) && p[8..] == f.data;
  }

  /** A DATA frame is read exactly if it is the encoding of a frame of 1 to 256 bytes. */
  lemma FrameReadIff(p: seq<Byte>)
    ensures ParseData(p).Good? <==> exists f :: IsFrame(f) && p == FramePayload(f)
    ensures ParseData(p).Bad? ==> ParseData(p).error == InvalidLength
  {
    hide GetU32, GetU16, FramePayload, FirmwareSession.ReadCrc, IsFrame;
    if ParseData(p).Good? {
      FrameIsEncoding(p);
    }
    if f :| IsFrame(f) && p == FramePayload(f) {
      FrameReads(f);
    }
  }

  /** The frame is sound, in turn and within the declared size, and only the queue is full. */
  predicate OnlyQueueFull(b: Bulk, f: Frame) { |b.queue| >= QUEUE_DEPTH && SendOk(b.(queue := []), f) }

  /** The service takes a frame exactly if a session is active and the transfer takes it; a full queue is told from all
      other reasons, because the host may then try again. */
  lemma DataService(active: bool, b: Bulk, p: seq<Byte>)
    ensures var (c, e) := ProcessData(active, b, p);
            && (e == Fine <==> active && ParseData(p).Good? && SendOk(b, ParseData(p).value))
            && (e == Fine ==> c == Step(b, Send(ParseData(p).value)) && |c.frames| == |b.frames| + 1)
            && (e != Fine ==> c == b)
            && (e == QueueFull <==> active && ParseData(p).Good? && OnlyQueueFull(b, ParseData(p).value))
            && (e == InvalidOperation <==> !active)
            && (e == InvalidLength <==> active && ParseData(p).Bad?)
  {
    hide ParseData, Crc16.Of;
    FrameReadIff(p);
  }
}
