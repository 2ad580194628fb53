/** A bulk file transfer on the target: a sender, a bounded queue, a worker thread, an end handshake over a semaphore
    and a cleanup work item. Each action is one step that no other thread can split; any of them may come next. */
module BulkTransfer {
  import opened Bytes
  import opened Register16
  import Crc16

  const QUEUE_DEPTH: nat := 10
  const MAX_FRAME: nat := 256

  datatype State = Idle | Receiving | Finalizing | Failed | Success

  datatype ErrorState =
    | NoError | TimeOut | WriteError | CrcMismatch | ByteCountMismatch | FileDelete | FileSync | FileClose
    | RefreshCatalog | InvalidRequest | QueueError

  datatype Item = Data(bytes: seq<Byte>) | End

  datatype Frame = Frame(id: nat, data: seq<Byte>, crc: Crc)

  /** Where the worker thread is. `Taken` and `Checked` hold a frame not written yet, `Wrote` and `Summed` one that
      is written but not checksummed, or not counted, and `Erring` one of which a part was written. */
  datatype Worker =
    | Gone | Fetching
    | Taken(held: seq<Byte>) | Checked(held: seq<Byte>) | Wrote(held: seq<Byte>) | Summed(held: seq<Byte>)
    | Erring(e: ErrorState, held: seq<Byte>, written: nat) | Marking | Leaving(cleanup: bool)

  /** Where the ending call is; it holds the transfer lock unless `NotEnding`. */
  datatype Ender = NotEnding | Locked | Putting | Waiting | Judging | Failing(e: ErrorState) | FailingState | Aborting

  datatype Result = Result(state: State, error: ErrorState)

  /** `frames` is history: the frames accepted since the transfer started. */
  datatype Bulk = Bulk(
    state: State, error: ErrorState, fileSize: nat, fileCrc: Crc, acceptedSize: nat, received: nat, runningCrc: Crc,
    nextFrame: nat, queue: seq<Item>, threadFlag: bool, done: bool, cleanup: bool, worker: Worker, ender: Ender,
    file: seq<Byte>, fileOpen: bool, frames: seq<seq<Byte>>)

  datatype Action =
    | Start(size: nat, crc: Crc)
    | Send(frame: Frame)
    | EndLock | EndFinalize | EndPut | EndPutTimeout | EndTake | EndTakeTimeout
    | EndFailError | EndFailState | EndAbort(closeOk: bool, deleteOk: bool)
    | EndJudge(syncOk: bool, closeOk: bool, refreshOk: bool, deleteOk: bool)
    | WorkerFetch | WorkerTimeout | WorkerCheck | WorkerWrite(writtenOk: bool, partial: nat) | WorkerSum | WorkerCount
    | WorkerMark | WorkerFail | WorkerSignal
    | Cleanup(closeOk: bool, deleteOk: bool)

  const IDLE := Bulk(Idle, NoError, 0, 0, 0, 0, Crc16.INIT, 0, [], false, false, false, Gone, NotEnding, [], false, [])

  /** Everything back to its default: the queue is purged and a running worker is stopped. The file stays as it is. */
  function ToDefault(b: Bulk): Bulk {
    b.(state := Idle, error := NoError, fileSize := 0, fileCrc := 0, acceptedSize := 0, received := 0,
       runningCrc := Crc16.INIT, nextFrame := 0, queue := [], threadFlag := false, done := false,
       worker := if b.threadFlag then Gone else b.worker, fileOpen := false)
  }

  // ---- starting and sending ----

  function DoStart(b: Bulk, size: nat, crc: Crc): Bulk {
    if b.ender != NotEnding || b.state != Idle || size == 0 then b
    else ToDefault(b).(state := Receiving, fileSize := size, fileCrc := crc, threadFlag := true, worker := Fetching,
                       file := [], fileOpen := true, frames := [])
  }

  predicate SendOk(b: Bulk, f: Frame) {
    && 0 < |f.data| <= MAX_FRAME
    && b.ender == NotEnding && b.state == Receiving && b.error == NoError
    && f.id == b.nextFrame
    && b.acceptedSize <= b.fileSize && |f.data| <= b.fileSize - b.acceptedSize
    && Crc16.Of(f.data) == f.crc
    && |b.queue| < QUEUE_DEPTH
  }

  function DoSend(b: Bulk, f: Frame): Bulk {
    if !SendOk(b, f) then b
    else b.(queue := b.queue + [Data(f.data)], acceptedSize := b.acceptedSize + |f.data|, nextFrame := b.nextFrame + 1,
            frames := b.frames + [f.data])
  }

  // ---- the worker ----

  predicate CanProcess(b: Bulk) { b.state == Receiving || b.state == Finalizing }

  function Fetched(b: Bulk): Bulk
    requires b.queue != []
  {
    b.(queue := b.queue[1..], worker := if b.queue[0].End? then Leaving(false) else Taken(b.queue[0].bytes))
  }

  function Checking(b: Bulk, d: seq<Byte>): Bulk {
    b.(worker := if CanProcess(b) then Checked(d) else Erring(QueueError, d, 0))
  }

  function Writing(b: Bulk, d: seq<Byte>, ok: bool, n: nat): Bulk {
    if !CanProcess(b) then b.(worker := Erring(WriteError, d, 0))
    else if ok then b.(file := b.file + d, worker := Wrote(d))
    else b.(file := b.file + d[..Min(n, |d|)], worker := Erring(WriteError, d, Min(n, |d|)))
  }

  function Summing(b: Bulk, d: seq<Byte>): Bulk { b.(runningCrc := Crc16.Update(b.runningCrc, d), worker := Summed(d)) }

  function Counting(b: Bulk, d: seq<Byte>): Bulk { b.(received := b.received + |d|, worker := Fetching) }

  function WorkerStep(b: Bulk, a: Action): Bulk {
    match (a, b.worker)
    case (WorkerFetch, Fetching) => if b.queue == [] then b else Fetched(b)
    case (WorkerTimeout, Fetching) => if b.queue == [] then b.(worker := Erring(TimeOut, [], 0)) else b
    case (WorkerCheck, Taken(d)) => Checking(b, d)
    case (WorkerWrite(ok, n), Checked(d)) => Writing(b, d, ok, n)
    case (WorkerSum, Wrote(d)) => Summing(b, d)
    case (WorkerCount, Summed(d)) => Counting(b, d)
    case (WorkerMark, Erring(e, _, _)) => b.(error := e, worker := Marking)
    case (WorkerFail, Marking) => b.(state := Failed, worker := Leaving(true))
    case (WorkerSignal, Leaving(c)) => b.(threadFlag := false, done := true, cleanup := b.cleanup || c, worker := Gone)
    case _ => b
  }

  // ---- the end of a transfer ----

  /** The file closed; a failed close is noted unless there is an error already. */
  function Closed(b: Bulk, closeOk: bool): Bulk {
    if b.fileOpen && !closeOk && b.error == NoError then b.(error := FileClose, fileOpen := false)
    else b.(fileOpen := false)
  }

  function Deleted(b: Bulk, deleteOk: bool): Bulk { if deleteOk then b.(file := []) else b.(error := FileDelete) }

  /** Close and delete what was written. */
  function Discard(b: Bulk, closeOk: bool, deleteOk: bool): Bulk { Deleted(Closed(b, closeOk), deleteOk) }

  function Finish(b: Bulk): (Bulk, Result) {
    (ToDefault(b).(ender := NotEnding), Result(b.state, b.error))
  }

  /** A transfer judged bad: what was written is discarded. */
  function Reject(b: Bulk, e: ErrorState, closeOk: bool, deleteOk: bool): (Bulk, Result) {
    Finish(Discard(b.(state := Failed, error := e), closeOk, deleteOk))
  }

  /** What the ending call does once the worker is gone, and the result it returns. */
  function Judge(b: Bulk, syncOk: bool, closeOk: bool, refreshOk: bool, deleteOk: bool): (Bulk, Result) {
    if b.error != NoError then Reject(b, b.error, closeOk, deleteOk)
    else if b.received != b.fileSize then Reject(b, ByteCountMismatch, closeOk, deleteOk)
    else if b.runningCrc != b.fileCrc then Reject(b, CrcMismatch, closeOk, deleteOk)
    else if !syncOk then Reject(b, FileSync, closeOk, deleteOk)
    else if !closeOk then Finish(b.(state := Failed, error := FileClose, fileOpen := false))
    else if !refreshOk then Finish(b.(state := Failed, error := RefreshCatalog, fileOpen := false))
    else Finish(b.(state := Success, fileOpen := false))
  }

  function EndStep(b: Bulk, a: Action): (Bulk, Option<Result>) {
    match (a, b.ender)
    case (EndLock, NotEnding) =>
      if b.state == Receiving then (b.(ender := Locked), None) else (b, Some(Result(b.state, InvalidRequest)))
    case (EndFinalize, Locked) => (b.(state := Finalizing, ender := Putting), None)
    case (EndPut, Putting) =>
      (if |b.queue| < QUEUE_DEPTH then b.(queue := b.queue + [End], ender := Waiting) else b, None)
    case (EndPutTimeout, Putting) => (b.(ender := Failing(QueueError)), None)
    case (EndTake, Waiting) => (if b.done then b.(done := false, ender := Judging) else b, None)
    case (EndTakeTimeout, Waiting) => (b.(ender := Failing(TimeOut)), None)
    case (EndFailError, Failing(e)) => (b.(error := e, ender := FailingState), None)
    case (EndFailState, FailingState) => (b.(state := Failed, ender := Aborting), None)
    case (EndAbort(closeOk, deleteOk), Aborting) =>
      var stopped := b.(worker := if b.threadFlag then Gone else b.worker, threadFlag := false);
      var (c, r) := Finish(Discard(stopped, closeOk, deleteOk));
      (c, Some(r))
    case (EndJudge(syncOk, closeOk, refreshOk, deleteOk), Judging) =>
      var (c, r) := Judge(b, syncOk, closeOk, refreshOk, deleteOk);
      (c, Some(r))
    case _ => (b, None)
  }

  function DoCleanup(b: Bulk, closeOk: bool, deleteOk: bool): Bulk {
    if !b.cleanup || b.ender != NotEnding then b
    else
      var c := b.(cleanup := false);
      if c.error == NoError || c.state == Idle then c
      else ToDefault(Discard(c.(state := Failed), closeOk, deleteOk))
  }

  // ---- one step ----

  function Step(b: Bulk, a: Action): Bulk {
    match a
    case Start(size, crc) => DoStart(b, size, crc)
    case Send(f) => DoSend(b, f)
    case Cleanup(closeOk, deleteOk) => DoCleanup(b, closeOk, deleteOk)
    case EndLock | EndFinalize | EndPut | EndPutTimeout | EndTake | EndTakeTimeout | EndFailError | EndFailState
       | EndAbort(_, _) | EndJudge(_, _, _, _) => EndStep(b, a).0
    case _ => WorkerStep(b, a)
  }

  function Run(b: Bulk, actions: seq<Action>): Bulk
    decreases |actions|
  {
    if actions == [] then b else Step(Run(b, actions[..|actions| - 1]), actions[|actions| - 1])
  }

  /** Runs put together. */
  lemma {:induction false} RunAppend(b: Bulk, xs: seq<Action>, ys: seq<Action>)
    ensures Run(b, xs + ys) == Run(Run(b, xs), ys)
    decreases |ys|
  {
    hide Step;
    if ys == [] {
      assert xs + ys == xs;
    } else {
      var n := |ys| - 1;
      RunAppend(b, xs, ys[..n]);
      assert (xs + ys)[..|xs + ys| - 1] == xs + ys[..n];
    }
  }

  lemma RunOne(b: Bulk, xs: seq<Action>, a: Action)
    ensures Run(b, xs + [a]) == Step(Run(b, xs), a)
    ensures Run(b, []) == b
  {
    hide Step;
    assert (xs + [a])[..|xs|] == xs;
  }

  // ---- what every step keeps ----

  function Concat(frames: seq<seq<Byte>>): seq<Byte> {
    if frames == [] then [] else Concat(frames[..|frames| - 1]) + frames[|frames| - 1]
  }

  function Queued(queue: seq<Item>): seq<Byte> {
    if queue == [] then [] else (if queue[0].Data? then queue[0].bytes else []) + Queued(queue[1..])
  }

  /** Bytes the worker holds that are not in the file. */
  function InHand(w: Worker): seq<Byte> {
    match w
    case Taken(d) => d
    case Checked(d) => d
    case Erring(_, d, n) => if n <= |d| then d[n..] else []
    case _ => []
  }

  /** Bytes in the file that the checksum does not cover yet. */
  function Unsummed(w: Worker): seq<Byte> {
    match w
    case Wrote(d) => d
    case Erring(_, d, n) => if n <= |d| then d[..n] else []
    case _ => []
  }

  /** Bytes taken from the queue but not counted as received. */
  function Uncounted(w: Worker): seq<Byte> {
    match w
    case Taken(d) => d
    case Checked(d) => d
    case Wrote(d) => d
    case Summed(d) => d
    case Erring(_, d, _) => d
    case _ => []
  }

  ghost predicate OnlyData(queue: seq<Item>) { forall i :: 0 <= i < |queue| ==> queue[i].Data? }

  /** A transfer with no error set. */
  ghost predicate Healthy(b: Bulk) { b.state != Idle && b.error == NoError }

  /** The accepted bytes are in the file, in the worker's hand or in the queue, in order; and the counters agree. */
  ghost predicate Flow(b: Bulk) {
    && b.file + InHand(b.worker) + Queued(b.queue) == Concat(b.frames)
    && b.received + |Uncounted(b.worker)| + |Queued(b.queue)| == b.acceptedSize <= b.fileSize
    && |Unsummed(b.worker)| <= |b.file|
    && b.file[|b.file| - |Unsummed(b.worker)|..] == Unsummed(b.worker)
    && b.runningCrc == Crc16.Of(b.file[..|b.file| - |Unsummed(b.worker)|])
    && b.nextFrame == |b.frames| && b.acceptedSize == |Concat(b.frames)|
  }

  /** The end marker is put once and is last; behind it the worker finds nothing. */
  ghost predicate Marker(b: Bulk) {
    && (b.worker == Leaving(false) || b.worker == Gone ==> b.queue == [] && b.ender !in {NotEnding, Locked, Putting})
    && (b.ender in {NotEnding, Locked, Putting} ==> OnlyData(b.queue))
    && (b.ender !in {NotEnding, Locked, Putting} ==>
          OnlyData(b.queue) || (OnlyData(b.queue[..|b.queue| - 1]) && b.queue[|b.queue| - 1] == End))
  }

  /** What can go wrong before the ending call judges or drops the file. */
  predicate Mishap(e: ErrorState) { e in {TimeOut, WriteError, QueueError} }

  ghost predicate Sized(frames: seq<seq<Byte>>) { forall i :: 0 <= i < |frames| ==> 0 < |frames[i]| <= MAX_FRAME }

  /** A transfer at rest: all that is left of the last one is its file, and a cleanup that finds nothing to do. */
  function AtRest(b: Bulk): Bulk { IDLE.(file := b.file, frames := b.frames, cleanup := b.cleanup) }

  ghost predicate Inv(b: Bulk) {
    && (b.worker == Gone <==> !b.threadFlag)
    && (b.done ==> b.worker == Gone)
    && (b.ender == Judging ==> b.worker == Gone)
    && (b.error == NoError || Mishap(b.error))
    && (b.worker == Marking || b.worker == Leaving(true) ==> b.error != NoError)
    && (b.worker.Erring? ==> Mishap(b.worker.e) && b.worker.written <= |b.worker.held|)
    && (b.ender.Failing? ==> Mishap(b.ender.e))
    && (b.ender == FailingState || b.ender == Aborting ==> b.error != NoError)
    && (b.ender == Aborting ==> b.state == Failed)
    && (if b.state == Idle then b == AtRest(b) else b.fileOpen)
    && Sized(b.frames)
    && (b.ender != NotEnding ==> b.state != Idle)
    && b.state != Success
    && (Healthy(b) ==> Flow(b) && Marker(b))
  }

  lemma ConcatSnoc(frames: seq<seq<Byte>>, d: seq<Byte>)
    ensures Concat(frames + [d]) == Concat(frames) + d
  {
    assert (frames + [d])[..|frames + [d]| - 1] == frames;
  }

  lemma {:induction false} QueuedSnoc(queue: seq<Item>, item: Item)
    ensures Queued(queue + [item]) == Queued(queue) + Queued([item])
    ensures Queued([item]) == if item.Data? then item.bytes else []
  {
    assert [item][1..] == [];
    if queue == [] {
      assert queue + [item] == [item];
    } else {
      var rest := queue[1..];
      assert (queue + [item])[1..] == rest + [item];
      QueuedSnoc(rest, item);
      var first := if queue[0].Data? then queue[0].bytes else [];
      assert Queued(queue + [item]) == first + Queued(rest + [item]);
      assert first + (Queued(rest) + Queued([item])) == (first + Queued(rest)) + Queued([item]);
    }
  }

  lemma StartKeeps(b: Bulk, size: nat, crc: Crc)
    requires Inv(b)
    ensures Inv(DoStart(b, size, crc))
  {
    Crc16.UpdateNil(Crc16.INIT);
  }

  lemma SendKeeps(b: Bulk, f: Frame)
    requires Inv(b)
    ensures Inv(DoSend(b, f))
  {
    hide Crc16.Update, Crc16.Of, Concat, Queued;
    if SendOk(b, f) {
      QueuedSnoc(b.queue, Data(f.data));
      ConcatSnoc(b.frames, f.data);
      assert b.file + InHand(b.worker) + (Queued(b.queue) + f.data) ==
          b.file + InHand(b.worker) + Queued(b.queue) + f.data;
    }
  }

  /** Between fetching a frame and counting it, the invariant rests on the flow of bytes and the end marker alone. */
  lemma MovedKeeps(b: Bulk, c: Bulk)
    requires Inv(b) && b.worker != Gone && c.worker !in {Gone, Marking, Leaving(true)}
    requires c == b.(queue := c.queue, worker := c.worker, file := c.file, runningCrc := c.runningCrc,
                     received := c.received)
    requires c.worker.Erring? ==> Mishap(c.worker.e) && c.worker.written <= |c.worker.held|
    requires Healthy(c) ==> Flow(c) && Marker(c)
    ensures Inv(c)
  {
    hide Flow, Marker;
  }

  lemma HealthyFlows(b: Bulk)
    requires Inv(b) && Healthy(b)
    ensures Flow(b) && Marker(b)
  {
    hide Flow, Marker;
  }

  lemma FetchMarker(b: Bulk)
    requires Marker(b) && b.worker == Fetching && b.queue != []
    ensures Marker(Fetched(b))
    ensures b.queue[0].End? ==> b.queue[1..] == []
  {
    var rest := b.queue[1..];
    if OnlyData(b.queue) {
      assert OnlyData(rest);
    } else {
      assert rest != [] ==> rest[..|rest| - 1] == b.queue[..|b.queue| - 1][1..];
    }
  }

  lemma FetchKeeps(b: Bulk)
    requires Inv(b) && b.worker == Fetching && b.queue != []
    ensures Inv(Fetched(b))
  {
    hide Crc16.Update, Concat, Inv;
    var t := Fetched(b);
    if Healthy(t) {
      HealthyFlows(b);
      FetchMarker(b);
      assert Queued(b.queue) == InHand(t.worker) + Queued(t.queue);
      assert b.file + (InHand(t.worker) + Queued(t.queue)) == b.file + InHand(t.worker) + Queued(t.queue);
    }
    MovedKeeps(b, t);
  }

  /** What a whole or partial write does to the bytes of the file, of the hand and of the queue. */
  lemma WrittenPart(file: seq<Byte>, d: seq<Byte>, m: nat, queued: seq<Byte>)
    requires m <= |d|
    ensures file + d + queued == (file + d[..m]) + d[m..] + queued
    ensures (file + d[..m])[..|file + d[..m]| - m] == file && (file + d[..m])[|file + d[..m]| - m..] == d[..m]
    ensures file[..|file| - 0] == file && file[|file| - 0..] == []
    ensures d[..|d|] == d && d[|d|..] == [] && d[..0] == [] && d[0..] == d
  {
  }

  lemma CheckedHolds(d: seq<Byte>)
    ensures InHand(Checked(d)) == d && Unsummed(Checked(d)) == [] && Uncounted(Checked(d)) == d
  {
  }

  lemma WroteFlow(b: Bulk, d: seq<Byte>, m: nat, w: Worker)
    requires Flow(b) && b.worker == Checked(d) && m <= |d|
    requires InHand(w) == d[m..] && Unsummed(w) == d[..m] && Uncounted(w) == d
    ensures Flow(b.(file := b.file + d[..m], worker := w))
  {
    hide Crc16.Of, Concat, Queued, InHand, Unsummed, Uncounted;
    WrittenPart(b.file, d, m, Queued(b.queue));
    CheckedHolds(d);
  }

  /** Where a write leaves the worker: the part written is not summed, the rest is still in hand. */
  lemma WriteLeaves(b: Bulk, d: seq<Byte>, ok: bool, n: nat) returns (m: nat)
    ensures m <= |d|
    ensures var w := Writing(b, d, ok, n).worker;
            && Writing(b, d, ok, n) == b.(file := b.file + d[..m], worker := w)
            && InHand(w) == d[m..] && Unsummed(w) == d[..m] && Uncounted(w) == d
            && (w.Wrote? || w == Erring(WriteError, d, m))
  {
    m := if !CanProcess(b) then 0 else if ok then |d| else Min(n, |d|);
    assert b.file + d[..0] == b.file && d[..|d|] == d;
  }

  lemma WriteKeeps(b: Bulk, ok: bool, n: nat)
    requires Inv(b) && b.worker.Checked?
    ensures Inv(Writing(b, b.worker.held, ok, n))
  {
    hide Flow, OnlyData, Inv, Writing, InHand, Unsummed, Uncounted;
    var d := b.worker.held;
    var m := WriteLeaves(b, d, ok, n);
    var t := Writing(b, d, ok, n);
    if Healthy(t) {
      HealthyFlows(b);
      WroteFlow(b, d, m, t.worker);
    }
    MovedKeeps(b, t);
  }

  lemma SumKeeps(b: Bulk)
    requires Inv(b) && b.worker.Wrote?
    ensures Inv(Summing(b, b.worker.held))
  {
    hide Crc16.Update, Concat, Queued, OnlyData, Inv;
    var t := Summing(b, b.worker.held);
    if Healthy(t) {
      HealthyFlows(b);
      var n := |b.file| - |b.worker.held|;
      assert b.file[..n] + b.worker.held == b.file == b.file[..|b.file| - 0];
      Crc16.UpdateConcat(Crc16.INIT, b.file[..n], b.worker.held);
    }
    MovedKeeps(b, t);
  }

  lemma CheckKeeps(b: Bulk)
    requires Inv(b) && b.worker.Taken?
    ensures Inv(Checking(b, b.worker.held))
  {
    hide Crc16.Update, Concat, Queued, OnlyData, Inv;
    var t := Checking(b, b.worker.held);
    if Healthy(t) {
      HealthyFlows(b);
    }
    MovedKeeps(b, t);
  }

  lemma CountKeeps(b: Bulk)
    requires Inv(b) && b.worker.Summed?
    ensures Inv(Counting(b, b.worker.held))
  {
    hide Crc16.Update, Concat, Queued, OnlyData, Inv;
    var t := Counting(b, b.worker.held);
    if Healthy(t) {
      HealthyFlows(b);
    }
    MovedKeeps(b, t);
  }

  lemma FailureKeeps(b: Bulk, a: Action)
    requires Inv(b) && a in {WorkerTimeout, WorkerMark, WorkerFail, WorkerSignal}
    ensures Inv(WorkerStep(b, a))
  {
    hide Crc16.Update, Concat, Queued, OnlyData;
  }

  lemma WorkerKeeps(b: Bulk, a: Action)
    requires Inv(b)
    ensures Inv(WorkerStep(b, a))
  {
    hide Inv, Fetched, Checking, Writing, Summing, Counting;
    match (a, b.worker) {
      case (WorkerFetch, Fetching) =>
        if b.queue != [] {
          FetchKeeps(b);
        }
      case (WorkerCheck, Taken(d)) =>
        CheckKeeps(b);
      case (WorkerWrite(ok, n), Checked(d)) =>
        WriteKeeps(b, ok, n);
      case (WorkerSum, Wrote(d)) =>
        SumKeeps(b);
      case (WorkerCount, Summed(d)) =>
        CountKeeps(b);
      case _ =>
        if a in {WorkerTimeout, WorkerMark, WorkerFail, WorkerSignal} {
          FailureKeeps(b, a);
        }
    }
  }

  lemma PutKeeps(b: Bulk)
    requires Inv(b) && b.ender == Putting
    ensures Inv(EndStep(b, EndPut).0)
  {
    hide Crc16.Update, Concat, Queued;
    QueuedSnoc(b.queue, End);
    assert (b.queue + [End])[..|b.queue + [End]| - 1] == b.queue;
  }

  lemma DiscardTouches(b: Bulk, closeOk: bool, deleteOk: bool)
    ensures var c := Discard(b, closeOk, deleteOk);
            c == b.(error := c.error, file := c.file, fileOpen := false) && (b.error != NoError ==> c.error != NoError)
  {
  }

  /** However a transfer ends, nothing of it is left running. */
  lemma FinishKeeps(b: Bulk)
    ensures (b.worker == Gone <==> !b.threadFlag) && Sized(b.frames) ==> Inv(Finish(b).0)
    ensures Finish(b).0.frames == b.frames && Finish(b).0.state == Idle
  {
  }

  lemma AbortKeeps(b: Bulk, closeOk: bool, deleteOk: bool)
    requires Inv(b) && b.ender == Aborting
    ensures Inv(EndStep(b, EndAbort(closeOk, deleteOk)).0)
  {
    hide Flow, Marker, Discard, Finish;
    var stopped := b.(worker := if b.threadFlag then Gone else b.worker, threadFlag := false);
    DiscardTouches(stopped, closeOk, deleteOk);
    FinishKeeps(Discard(stopped, closeOk, deleteOk));
  }

  /** The accepted bytes do not depend on what the ending call is doing. */
  lemma SameFlow(b: Bulk, c: Bulk)
    requires c == b.(state := c.state, error := c.error, done := c.done, ender := c.ender)
    ensures Flow(b) == Flow(c)
  {
    hide Crc16.Update, Concat, Queued;
  }

  lemma EndFails(b: Bulk, a: Action)
    requires Inv(b) && a in {EndPutTimeout, EndTakeTimeout, EndFailError, EndFailState}
    ensures Inv(EndStep(b, a).0)
  {
    hide Flow, OnlyData;
    var c := EndStep(b, a).0;
    assert Healthy(c) ==> Healthy(b);
    SameFlow(b, c);
  }

  lemma EndAdvances(b: Bulk, a: Action)
    requires Inv(b) && a in {EndLock, EndFinalize, EndTake}
    ensures Inv(EndStep(b, a).0)
  {
    hide Flow, OnlyData;
    var c := EndStep(b, a).0;
    assert Healthy(c) ==> Healthy(b);
    SameFlow(b, c);
  }

  lemma EndMoves(b: Bulk, a: Action)
    requires Inv(b) && (a.EndAbort? ==> b.ender != Aborting) && (a.EndJudge? ==> b.ender != Judging)
    requires a == EndPut ==> b.ender != Putting
    ensures Inv(EndStep(b, a).0)
  {
    hide Inv, Discard, Finish, Judge;
    if a in {EndPutTimeout, EndTakeTimeout, EndFailError, EndFailState} {
      EndFails(b, a);
    } else if a in {EndLock, EndFinalize, EndTake} {
      EndAdvances(b, a);
    }
  }

  lemma RejectKeeps(b: Bulk, e: ErrorState, closeOk: bool, deleteOk: bool)
    requires b.worker == Gone && !b.threadFlag && Sized(b.frames)
    ensures Inv(Reject(b, e, closeOk, deleteOk).0)
    ensures Reject(b, e, closeOk, deleteOk).1.state == Failed
    ensures Reject(b, e, closeOk, deleteOk).0.frames == b.frames && Reject(b, e, closeOk, deleteOk).0.state == Idle
  {
    hide Inv, Discard;
    DiscardTouches(b.(state := Failed, error := e), closeOk, deleteOk);
    FinishKeeps(Discard(b.(state := Failed, error := e), closeOk, deleteOk));
  }

  lemma JudgedGone(b: Bulk)
    requires Inv(b) && b.ender == Judging
    ensures b.worker == Gone && !b.threadFlag && Sized(b.frames)
  {
  }

  lemma JudgeKeeps(b: Bulk, syncOk: bool, closeOk: bool, refreshOk: bool, deleteOk: bool)
    requires Inv(b) && b.ender == Judging
    ensures var c := Judge(b, syncOk, closeOk, refreshOk, deleteOk).0;
            Inv(c) && c.frames == b.frames && c.state == Idle
  {
    hide Reject, Finish, Inv;
    JudgedGone(b);
    RejectKeeps(b, b.error, closeOk, deleteOk);
    RejectKeeps(b, ByteCountMismatch, closeOk, deleteOk);
    RejectKeeps(b, CrcMismatch, closeOk, deleteOk);
    RejectKeeps(b, FileSync, closeOk, deleteOk);
    FinishKeeps(b.(state := Failed, error := FileClose, fileOpen := false));
    FinishKeeps(b.(state := Failed, error := RefreshCatalog, fileOpen := false));
    FinishKeeps(b.(state := Success, fileOpen := false));
  }

  lemma EndOthersKeep(b: Bulk, a: Action)
    requires Inv(b) && (a == EndPut ==> b.ender != Putting)
    ensures Inv(EndStep(b, a).0)
  {
    hide Crc16.Update, Concat, Queued, OnlyData, Discard, Finish, Judge, Inv;
    match (a, b.ender) {
      case (EndAbort(closeOk, deleteOk), Aborting) =>
        AbortKeeps(b, closeOk, deleteOk);
      case (EndJudge(syncOk, closeOk, refreshOk, deleteOk), Judging) =>
        JudgeKeeps(b, syncOk, closeOk, refreshOk, deleteOk);
      case _ =>
        EndMoves(b, a);
    }
  }

  lemma EndKeeps(b: Bulk, a: Action)
    requires Inv(b)
    ensures Inv(EndStep(b, a).0)
  {
    hide Crc16.Update, Concat, Queued, OnlyData;
    if a == EndPut && b.ender == Putting {
      PutKeeps(b);
    } else {
      EndOthersKeep(b, a);
    }
  }

  lemma CleanupKeeps(b: Bulk, closeOk: bool, deleteOk: bool)
    requires Inv(b)
    ensures Inv(DoCleanup(b, closeOk, deleteOk))
  {
    hide Crc16.Update, Concat, Queued, OnlyData, Discard;
    DiscardTouches(b.(cleanup := false).(state := Failed), closeOk, deleteOk);
  }

  lemma StepKeepsInv(b: Bulk, a: Action)
    requires Inv(b)
    ensures Inv(Step(b, a))
  {
    hide Inv, DoStart, DoSend, DoCleanup, EndStep, WorkerStep;
    match a {
      case Start(size, crc) =>
        StartKeeps(b, size, crc);
      case Send(f) =>
        SendKeeps(b, f);
      case Cleanup(closeOk, deleteOk) =>
        CleanupKeeps(b, closeOk, deleteOk);
      case EndLock | EndFinalize | EndPut | EndPutTimeout | EndTake | EndTakeTimeout | EndFailError | EndFailState
         | EndAbort(_, _) | EndJudge(_, _, _, _) =>
        EndKeeps(b, a);
      case _ =>
        WorkerKeeps(b, a);
    }
  }

  /** Under every interleaving of senders, worker, end, timeouts and cleanup: while no error is set, what was accepted
      is in the file, in the worker's hand or in the queue, in order, and no more than was declared. */
  lemma {:induction false} RunKeepsInv(b: Bulk, actions: seq<Action>)
    requires Inv(b)
    ensures Inv(Run(b, actions))
    decreases |actions|
  {
    hide Inv, Step;
    if actions == [] {
    } else {
      var n := |actions| - 1;
      RunKeepsInv(b, actions[..n]);
      StepKeepsInv(Run(b, actions[..n]), actions[n]);
    }
  }

  lemma JudgedSuccess(b: Bulk, syncOk: bool, closeOk: bool, refreshOk: bool, deleteOk: bool)
    requires b.worker == Gone && !b.threadFlag && Sized(b.frames)
    requires Judge(b, syncOk, closeOk, refreshOk, deleteOk).1 == Result(Success, NoError)
    ensures b.error == NoError && b.received == b.fileSize && b.runningCrc == b.fileCrc
    ensures var c := Judge(b, syncOk, closeOk, refreshOk, deleteOk).0;
            c.file == b.file && !c.fileOpen
  {
    hide Reject;
    forall e: ErrorState
      ensures Reject(b, e, closeOk, deleteOk).1.state == Failed
    {
      RejectKeeps(b, e, closeOk, deleteOk);
    }
  }

  lemma Drained(b: Bulk)
    requires Inv(b) && b.ender == Judging && b.error == NoError
    ensures b.file == Concat(b.frames) && b.received == |b.file| && b.runningCrc == Crc16.Of(b.file)
  {
    hide Crc16.Update, Concat;
    assert b.file[..|b.file| - 0] == b.file;
    assert b.file + [] + Queued([]) == b.file;
  }

  /** Once the ending call has set an error, the abort path returns one. */
  lemma AbortFails(b: Bulk, closeOk: bool, deleteOk: bool)
    requires Inv(b) && b.ender == Aborting
    ensures EndStep(b, EndAbort(closeOk, deleteOk)).1 != Some(Result(Success, NoError))
  {
  }

  /** A transfer that ends in Success without error left a file of the declared length and checksum, made of the
      accepted frames in order. No other step of the ending call reports success. */
  lemma SuccessMeansFile(b: Bulk, a: Action)
    requires Inv(b)
    requires EndStep(b, a).1 == Some(Result(Success, NoError))
    ensures a.EndJudge? && var c := EndStep(b, a).0;
            c.file == Concat(b.frames) && |c.file| == b.fileSize && Crc16.Of(c.file) == b.fileCrc && !c.fileOpen
  {
    hide Crc16.Update, Concat, Queued, Flow, Marker, Judge;
    match (a, b.ender) {
      case (EndJudge(syncOk, closeOk, refreshOk, deleteOk), Judging) =>
        JudgedGone(b);
        JudgedSuccess(b, syncOk, closeOk, refreshOk, deleteOk);
        Drained(b);
      case (EndAbort(closeOk, deleteOk), Aborting) =>
        AbortFails(b, closeOk, deleteOk);
      case _ =>
    }
  }

  /** The worker is gone whenever the ending call decides, so nothing writes to the file behind its back. */
  lemma JudgeIsAlone(b: Bulk, actions: seq<Action>)
    requires Inv(b)
    ensures Run(b, actions).ender == Judging ==> Run(b, actions).worker == Gone
    ensures Run(b, actions).state == Idle ==> Run(b, actions).worker == Gone && Run(b, actions).error == NoError
  {
    hide Run;
    RunKeepsInv(b, actions);
  }
}
