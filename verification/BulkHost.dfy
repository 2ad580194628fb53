/** A file from the host to the target: the START and DATA payloads on both sides, and the host's transfer loop
    against a target whose worker and cleanup run in between at will. */
module BulkHost {
  import opened Bytes
  import opened Register16
  import opened BulkTransfer
  import opened FirmwareImage
  import FirmwareSession
  import Crc16

  const MAX_NAME: nat := 30
  const FILE_TYPES: nat := 5

  datatype UartError = Fine | InvalidOperation | InvalidLength | InvalidFrame | QueueFull | BulkStartFailed

  datatype StartRequest = StartRequest(fileType: nat, size: nat, crc: Crc, name: seq<Byte>)

  datatype Parsed<T> = Good(value: T) | Bad(error: UartError)

  // ---- payloads ----

  function StartPayload(r: StartRequest): (p: seq<Byte>)
    ensures |p| == 8 + |r.name|
  {
    [(r.fileType % 256) as Byte] + PutU32(r.size) + PutCrc(r.crc) + [(|r.name| % 256) as Byte] + r.name
  }

  /** The target's reading of a START payload. */
  function ParseStart(p: seq<Byte>): Parsed<StartRequest> {
    if |p| < 8 then Bad(InvalidLength)
    else
      var nameLen := p[7] as nat;
      if nameLen == 0 || nameLen >= MAX_NAME || |p| != 8 + nameLen then Bad(InvalidLength)
      else
        var r := StartRequest(p[0] as nat, GetU32(p[1..5]), FirmwareSession.ReadCrc(p[5..7]), p[8..]);
        if r.fileType == 0 || r.fileType >= FILE_TYPES || r.size == 0 then Bad(InvalidFrame) else Good(r)
  }

  function DataPayload(id: nat, data: seq<Byte>): (p: seq<Byte>)
    ensures |p| == 8 + |data|
  {
    PutU32(id) + PutU16(|data|) + PutCrc(Crc16.Of(data)) + data
  }

  /** The target's reading of a DATA payload. */
  function ParseData(p: seq<Byte>): Parsed<Frame> {
    if |p| < 8 then Bad(InvalidLength)
    else
      var n := GetU16(p[4..6]);
      if n == 0 || n > MAX_FRAME || |p| != 8 + n then Bad(InvalidLength)
      else Good(Frame(GetU32(p[..4]), p[8..], FirmwareSession.ReadCrc(p[6..8])))
  }

  /** Every START the host sends is read back as sent. */
  lemma StartReadsBack(r: StartRequest)
    requires 0 < r.fileType < FILE_TYPES && 0 < r.size < 0x1_0000_0000 && 0 < |r.name| < MAX_NAME
    ensures ParseStart(StartPayload(r)) == Good(r)
  {
    hide GetU32, PutU32, PutCrc, FirmwareSession.ReadCrc;
    ByteRoundTrip(r.fileType);
    ByteRoundTrip(|r.name|);
    U32RoundTrip(r.size);
    CrcRoundTrip(r.crc);
    var p := StartPayload(r);
    assert p[1..5] == PutU32(r.size);
    assert p[5..7] == PutCrc(r.crc);
    assert p[8..] == r.name;
  }

  /** Every DATA frame the host sends is read back as sent. */
  lemma DataReadsBack(id: nat, data: seq<Byte>)
    requires id < 0x1_0000_0000 && 0 < |data| <= MAX_FRAME
    ensures ParseData(DataPayload(id, data)) == Good(Frame(id, data, Crc16.Of(data)))
  {
    hide GetU32, PutU32, PutCrc, GetU16, PutU16, FirmwareSession.ReadCrc, Crc16.Of;
    U32RoundTrip(id);
    U16RoundTrip(|data|);
    CrcRoundTrip(Crc16.Of(data));
    var p := DataPayload(id, data);
    assert p[..4] == PutU32(id);
    assert p[4..6] == PutU16(|data|);
    assert p[6..8] == PutCrc(Crc16.Of(data));
    assert p[8..] == data;
  }

  // ---- the service ----

  function ProcessStart(b: Bulk, payload: seq<Byte>): (Bulk, UartError) {
    match ParseStart(payload)
    case Bad(e) => (b, e)
    case Good(r) =>
      var c := DoStart(b, r.size, r.crc);
      if c.state == Receiving && b.state == Idle then (c, Fine) else (b, BulkStartFailed)
  }

  function ProcessData(active: bool, b: Bulk, payload: seq<Byte>): (Bulk, UartError) {
    if !active then (b, InvalidOperation)
    else
      match ParseData(payload)
      case Bad(e) => (b, e)
      case Good(f) =>
        if SendOk(b, f) then (DoSend(b, f), Fine)
        else if SendOk(b.(queue := []), f) then (b, QueueFull)
        else (b, InvalidFrame)
  }

  // ---- the host ----

  function ChunkCount(n: nat): nat { (n + MAX_FRAME - 1) / MAX_FRAME }

  function ChunkAt(data: seq<Byte>, i: nat): seq<Byte>
    requires i < ChunkCount(|data|)
  {
    data[i * MAX_FRAME..Min((i + 1) * MAX_FRAME, |data|)]
  }

  /** The first `n` chunks of a file. */
  function Chunks(data: seq<Byte>, n: nat): (c: seq<seq<Byte>>)
    requires n <= ChunkCount(|data|)
    ensures |c| == n
  {
    if n == 0 then [] else Chunks(data, n - 1) + [ChunkAt(data, n - 1)]
  }

  lemma {:induction false} ChunksConcat(data: seq<Byte>, n: nat)
    requires n <= ChunkCount(|data|)
    ensures Concat(Chunks(data, n)) == data[..Min(n * MAX_FRAME, |data|)]
  {
    if n == 0 {
    } else {
      ChunksConcat(data, n - 1);
      ConcatSnoc(Chunks(data, n - 1), ChunkAt(data, n - 1));
    }
  }

  /** Steps of the worker, the cleanup and an ending call: all but new sends and starts. */
  predicate Background(a: Action) { !a.Start? && !a.Send? }

  /** What background steps leave of a transfer: unless it is over, its declaration and accepted frames. */
  ghost predicate Same(b: Bulk, c: Bulk) {
    && c.frames == b.frames
    && (c.state != Idle ==>
          b.state != Idle && c.fileSize == b.fileSize && c.fileCrc == b.fileCrc && c.nextFrame == b.nextFrame)
  }

  lemma MarkLeaves(b: Bulk, a: Action)
    requires (b.state == Idle ==> b.worker == Gone) && a in {WorkerMark, WorkerFail, WorkerSignal}
    ensures Same(b, WorkerStep(b, a))
  {
  }

  lemma MovesLeave(b: Bulk)
    requires b.state != Idle
    ensures b.queue != [] ==> Same(b, Fetched(b))
    ensures forall d: seq<Byte> :: Same(b, Checking(b, d)) && Same(b, Summing(b, d)) && Same(b, Counting(b, d))
    ensures forall d: seq<Byte>, ok: bool, n: nat :: Same(b, Writing(b, d, ok, n))
  {
    hide Crc16.Update;
  }

  lemma FrameStepLeaves(b: Bulk, a: Action)
    requires (b.state == Idle ==> b.worker == Gone) && a !in {WorkerMark, WorkerFail, WorkerSignal}
    ensures Same(b, WorkerStep(b, a))
  {
    hide Fetched, Checking, Writing, Summing, Counting;
    match (a, b.worker) {
      case (WorkerFetch, Fetching) =>
        if b.queue != [] {
          MovesLeave(b);
        }
      case (WorkerCheck, Taken(d)) =>
        MovesLeave(b);
      case (WorkerWrite(ok, n), Checked(d)) =>
        MovesLeave(b);
      case (WorkerSum, Wrote(d)) =>
        MovesLeave(b);
      case (WorkerCount, Summed(d)) =>
        MovesLeave(b);
      case _ =>
    }
  }

  lemma IdleAlone(b: Bulk)
    requires Inv(b)
    ensures b.state == Idle ==> b.worker == Gone
  {
  }

  lemma WorkerLeaves(b: Bulk, a: Action)
    requires Inv(b)
    ensures Same(b, WorkerStep(b, a))
  {
    hide Crc16.Update, Inv;
    IdleAlone(b);
    if a in {WorkerMark, WorkerFail, WorkerSignal} {
      MarkLeaves(b, a);
    } else {
      FrameStepLeaves(b, a);
    }
  }

  lemma CleanupLeaves(b: Bulk, closeOk: bool, deleteOk: bool)
    requires Inv(b)
    ensures Same(b, DoCleanup(b, closeOk, deleteOk))
  {
    hide Discard, Inv;
    DiscardTouches(b.(cleanup := false).(state := Failed), closeOk, deleteOk);
  }

  lemma EndingBusy(b: Bulk)
    requires Inv(b)
    ensures b.ender != NotEnding ==> b.state != Idle
  {
  }

  lemma EndMovesLeave(b: Bulk, a: Action)
    requires b.ender != NotEnding ==> b.state != Idle
    requires (a.EndAbort? ==> b.ender != Aborting) && (a.EndJudge? ==> b.ender != Judging)
    ensures Same(b, EndStep(b, a).0)
  {
    hide Discard, Finish, Judge;
  }

  lemma EndLeaves(b: Bulk, a: Action)
    requires Inv(b)
    ensures Same(b, EndStep(b, a).0)
  {
    hide Discard, Finish, Judge, Inv;
    EndingBusy(b);
    match (a, b.ender) {
      case (EndAbort(closeOk, deleteOk), Aborting) =>
        var stopped := b.(worker := if b.threadFlag then Gone else b.worker, threadFlag := false);
        DiscardTouches(stopped, closeOk, deleteOk);
        FinishKeeps(Discard(stopped, closeOk, deleteOk));
      case (EndJudge(syncOk, closeOk, refreshOk, deleteOk), Judging) =>
        JudgeKeeps(b, syncOk, closeOk, refreshOk, deleteOk);
      case _ =>
        EndMovesLeave(b, a);
    }
  }

  lemma BackgroundKeeps(b: Bulk, a: Action)
    requires Background(a) && Inv(b)
    ensures Same(b, Step(b, a))
  {
    hide Inv, Same, DoCleanup, EndStep, WorkerStep;
    match a {
      case Cleanup(closeOk, deleteOk) =>
        CleanupLeaves(b, closeOk, deleteOk);
      case EndLock | EndFinalize | EndPut | EndPutTimeout | EndTake | EndTakeTimeout | EndFailError | EndFailState
         | EndAbort(_, _) | EndJudge(_, _, _, _) =>
        EndLeaves(b, a);
      case _ =>
        WorkerLeaves(b, a);
    }
  }

  method RunBackground(b: Bulk, actions: seq<Action>) returns (c: Bulk)
    requires Inv(b) && forall i :: 0 <= i < |actions| ==> Background(actions[i])
    ensures Inv(c) && Same(b, c)
  {
    hide Inv, Step;
    c := b;
    for i := 0 to |actions|
      invariant Inv(c) && Same(b, c)
    {
      StepKeepsInv(c, actions[i]);
      BackgroundKeeps(c, actions[i]);
      c := Step(c, actions[i]);
    }
  }

  method Both<A, B>(p: (A, B)) returns (a: A, b: B)
    ensures a == p.0 && b == p.1
  {
    return p.0, p.1;
  }

  lemma StartedFresh(b: Bulk, r: StartRequest)
    requires Inv(b) && r.size > 0
    ensures var c := DoStart(b, r.size, r.crc);
            && Inv(c)
            && (c.state == Receiving && b.state == Idle ==> c.frames == [] && c.fileSize == r.size && c.nextFrame == 0)
  {
    StartKeeps(b, r.size, r.crc);
  }

  lemma SentFrame(b: Bulk, f: Frame)
    requires Inv(b)
    ensures var c := DoSend(b, f);
            && Inv(c)
            && (SendOk(b, f) ==> b.state == Receiving && c.state == Receiving && c.frames == b.frames + [f.data] &&
                                 c.nextFrame == b.nextFrame + 1 && c.fileSize == b.fileSize)
  {
    hide Inv;
    SendKeeps(b, f);
  }

  /** START, one DATA frame per 256 bytes, END; any refusal gives up. `between[i]` is what happens on the target before
      frame i, and `ending` what happens from the END on, the steps of the ending call included. If the transfer is
      reported complete, the target's file is the host's. */
  method SendTransferFile(b: Bulk, request: StartRequest, data: seq<Byte>, between: seq<seq<Action>>,
                          ending: seq<Action>)
    returns (complete: bool, c: Bulk)
    requires Inv(b) && 0 < |data| < 0x1_0000_0000
    requires request.size == |data| && request.crc == Crc16.Of(data)
    requires 0 < request.fileType < FILE_TYPES && 0 < |request.name| < MAX_NAME
    requires |between| == ChunkCount(|data|)
    requires forall i, j :: 0 <= i < |between| && 0 <= j < |between[i]| ==> Background(between[i][j])
    requires forall j :: 0 <= j < |ending| ==> Background(ending[j])
    ensures Inv(c) && (complete ==> c.file == data)
  {
    hide Inv, Step, DoSend, DoStart, SendOk, Crc16.Of, ParseStart, ParseData, StartPayload, DataPayload;
    StartReadsBack(request);
    StartedFresh(b, request);
    var started, startError := Both(ProcessStart(b, StartPayload(request)));
    c := started;
    if startError != Fine {
      return false, c;
    }
    var offset, frameId := 0, 0;
    while offset < |data|
      invariant offset == frameId * MAX_FRAME && frameId <= ChunkCount(|data|)
      invariant Inv(c) && c.frames == Chunks(data, frameId)
      invariant c.state != Idle ==> c.fileSize == |data| && c.nextFrame == frameId
    {
      c := RunBackground(c, between[frameId]);
      var chunk := data[offset..Min(offset + MAX_FRAME, |data|)];
      DataReadsBack(frameId, chunk);
      SentFrame(c, Frame(frameId, chunk, Crc16.Of(chunk)));
      var next, error := Both(ProcessData(true, c, DataPayload(frameId, chunk)));
      if error != Fine {
        return false, c;
      }
      c := next;
      frameId, offset := frameId + 1, offset + MAX_FRAME;
    }
    ChunksConcat(data, frameId);
    for i := 0 to |ending|
      invariant Inv(c) && c.frames == Chunks(data, ChunkCount(|data|))
    {
      var next, result := Both(EndStep(c, ending[i]));
      if result.Some? {
        EndKeeps(c, ending[i]);
        if result.value == Result(Success, NoError) {
          SuccessMeansFile(c, ending[i]);
          return true, next;
        }
        return false, next;
      }
      StepKeepsInv(c, ending[i]);
      BackgroundKeeps(c, ending[i]);
      c := Step(c, ending[i]);
    }
    return false, c;
  }
}
