/** The transfer controller as the code keeps it: a control block, a ring of ten messages, a few flags and the file.
    The worker loop and the ending call are straight code over it; wherever they hold no lock, or wait, the other
    threads may do any of their steps. */
module BulkController {
  import opened Bytes
  import opened Register16
  import opened BulkTransfer
  import opened BulkVerdict
  import Crc16

  /** Where the `i`-th message behind `head` lies in the ring. */
  function Place(head: nat, i: nat): (k: nat)
    requires head < QUEUE_DEPTH && i <= QUEUE_DEPTH
    ensures k < QUEUE_DEPTH
  {
    if head + i < QUEUE_DEPTH then head + i else head + i - QUEUE_DEPTH
  }

  function Ring(slots: seq<Item>, head: nat, count: nat): (items: seq<Item>)
    requires |slots| == QUEUE_DEPTH && head < QUEUE_DEPTH && count <= QUEUE_DEPTH
    ensures |items| == count && forall i :: 0 <= i < count ==> items[i] == slots[Place(head, i)]
  {
    seq(count, i requires 0 <= i < count => slots[Place(head, i)])
  }

  lemma RingPut(slots: seq<Item>, head: nat, count: nat, item: Item)
    requires |slots| == QUEUE_DEPTH && head < QUEUE_DEPTH && count < QUEUE_DEPTH
    ensures Ring(slots[Place(head, count) := item], head, count + 1) == Ring(slots, head, count) + [item]
  {
    forall i | 0 <= i < count
      ensures Place(head, i) != Place(head, count)
    {
    }
  }

  lemma RingGet(slots: seq<Item>, head: nat, count: nat)
    requires |slots| == QUEUE_DEPTH && head < QUEUE_DEPTH && 0 < count <= QUEUE_DEPTH
    ensures Ring(slots, head, count) == [slots[head]] + Ring(slots, Place(head, 1), count - 1)
  {
    forall i | 0 < i < count
      ensures Place(head, i) == Place(Place(head, 1), i - 1)
    {
    }
  }

  /** The message queue: ten slots used in a ring. */
  class MsgQueue {
    const slots: array<Item>
    var head: nat
    var count: nat

    ghost predicate Valid()
      reads this, slots
    {
      slots.Length == QUEUE_DEPTH && head < QUEUE_DEPTH && count <= QUEUE_DEPTH
    }

    /** The messages, oldest first. */
    function Contents(): (items: seq<Item>)
      requires Valid()
      reads this, slots
      ensures |items| == count
    {
      Ring(slots[..], head, count)
    }

    constructor ()
      ensures Valid() && Contents() == [] && fresh(slots)
    {
      slots := new Item[QUEUE_DEPTH](_ => End);
      head, count := 0, 0;
    }

    method Put(item: Item) returns (ok: bool)
      requires Valid()
      modifies this`count, slots
      ensures Valid() && ok == (|old(Contents())| < QUEUE_DEPTH)
      ensures Contents() == if ok then old(Contents()) + [item] else old(Contents())
    {
      hide Ring, Place;
      ok := count < QUEUE_DEPTH;
      if ok {
        RingPut(slots[..], head, count, item);
        slots[Place(head, count)] := item;
        count := count + 1;
        assert slots[..] == old(slots[..])[Place(head, count - 1) := item];
      }
    }

    method Get() returns (ok: bool, item: Item)
      requires Valid()
      modifies this`head, this`count
      ensures Valid() && ok == (old(Contents()) != [])
      ensures ok ==> old(Contents()) == [item] + Contents()
      ensures !ok ==> Contents() == []
    {
      hide Ring, Place;
      ok, item := count > 0, slots[head];
      if ok {
        RingGet(slots[..], head, count);
        head, count := Place(head, 1), count - 1;
      }
    }

    method Purge()
      requires Valid()
      modifies this`head, this`count
      ensures Valid() && Contents() == []
    {
      head, count := 0, 0;
    }
  }

  /** The control block of a transfer. */
  datatype Block = Block(
    state: State, error: ErrorState, fileSize: nat, fileCrc: Crc, acceptedSize: nat, received: nat, runningCrc: Crc,
    nextFrame: nat, fileOpen: bool)

  const CLEAR := Block(Idle, NoError, 0, 0, 0, 0, Crc16.INIT, 0, false)

  /** What happens around one turn of the worker loop: the steps of the other threads before each of its own, and what
      the file system does. The last three are for a worker that gives up. */
  datatype Turn = Turn(
    waiting: seq<Action>, taken: seq<Action>, checked: seq<Action>, writtenOk: bool, partial: nat, wrote: seq<Action>,
    summed: seq<Action>, erring: seq<Action>, marking: seq<Action>, leaving: seq<Action>)

  /** What happens around the ending call. The last three lists are for one that fails. */
  datatype Close = Close(
    locked: seq<Action>, putting: seq<Action>, waiting: seq<Action>, judging: seq<Action>, failing: seq<Action>,
    failingState: seq<Action>, aborting: seq<Action>, syncOk: bool, closeOk: bool, refreshOk: bool, deleteOk: bool)

  /** How a worker loop ended: stopped by another thread, at the end marker, or by itself. */
  datatype Exit = Running | Stopped | AtMarker | GaveUp

  /** A step of the ending call. */
  predicate IsEnd(a: Action) {
    match a
    case EndLock | EndFinalize | EndPut | EndPutTimeout | EndTake | EndTakeTimeout | EndFailError | EndFailState
       | EndAbort(_, _) | EndJudge(_, _, _, _) => true
    case _ => false
  }

  /** A step of the worker thread. */
  predicate IsWorker(a: Action) {
    match a
    case WorkerFetch | WorkerTimeout | WorkerCheck | WorkerWrite(_, _) | WorkerSum | WorkerCount
       | WorkerMark | WorkerFail | WorkerSignal => true
    case _ => false
  }

  lemma WorkerRuns(from: Bulk, steps: seq<Action>, a: Action)
    requires IsWorker(a)
    ensures Run(from, steps + [a]) == WorkerStep(Run(from, steps), a)
  {
    hide WorkerStep;
    RunOne(from, steps, a);
  }

  lemma EndRuns(from: Bulk, steps: seq<Action>, a: Action)
    requires IsEnd(a)
    ensures Run(from, steps + [a]) == EndStep(Run(from, steps), a).0
  {
    hide EndStep;
    RunOne(from, steps, a);
  }

  /** None of the steps is the worker's own. */
  predicate NotWorkers(others: seq<Action>) { forall i :: 0 <= i < |others| ==> !IsWorker(others[i]) }

  predicate NotEnds(others: seq<Action>) { forall i :: 0 <= i < |others| ==> !IsEnd(others[i]) }

  /** The declaration, what was accepted and the place of the ending call are the same, and nothing was queued. */
  ghost predicate SameTerms(b: Bulk, c: Bulk) {
    && c.ender == b.ender && c.fileSize == b.fileSize && c.fileCrc == b.fileCrc && c.frames == b.frames
    && |c.queue| <= |b.queue|
  }

  lemma SameSelf(b: Bulk)
    ensures SameTerms(b, b)
  {
  }

  lemma FrameMovesTerms(b: Bulk)
    ensures b.queue != [] ==> SameTerms(b, Fetched(b))
    ensures forall d: seq<Byte> :: SameTerms(b, Checking(b, d)) && SameTerms(b, Summing(b, d)) &&
              SameTerms(b, Counting(b, d))
    ensures forall d: seq<Byte>, ok: bool, n: nat :: SameTerms(b, Writing(b, d, ok, n))
  {
    hide Crc16.Update;
  }

  lemma MarksLeaveTerms(b: Bulk, a: Action)
    requires a in {WorkerTimeout, WorkerMark, WorkerFail, WorkerSignal}
    ensures SameTerms(b, WorkerStep(b, a))
  {
  }

  lemma WorkerLeavesTerms(b: Bulk, a: Action)
    ensures SameTerms(b, WorkerStep(b, a))
  {
    hide Fetched, Checking, Writing, Summing, Counting, SameTerms;
    SameSelf(b);
    match (a, b.worker) {
      case (WorkerFetch, Fetching) =>
        if b.queue != [] {
          FrameMovesTerms(b);
        }
      case (WorkerCheck, Taken(d)) =>
        FrameMovesTerms(b);
      case (WorkerWrite(ok, n), Checked(d)) =>
        FrameMovesTerms(b);
      case (WorkerSum, Wrote(d)) =>
        FrameMovesTerms(b);
      case (WorkerCount, Summed(d)) =>
        FrameMovesTerms(b);
      case _ =>
        if a in {WorkerTimeout, WorkerMark, WorkerFail, WorkerSignal} {
          MarksLeaveTerms(b, a);
        }
    }
  }

  lemma SendHasRoom(b: Bulk, f: Frame)
    requires SendOk(b, f)
    ensures |b.queue| < QUEUE_DEPTH
  {
  }

  lemma FinishEmpties(b: Bulk)
    ensures Finish(b).0.queue == []
  {
  }

  lemma JudgeEmpties(b: Bulk, syncOk: bool, closeOk: bool, refreshOk: bool, deleteOk: bool)
    ensures Judge(b, syncOk, closeOk, refreshOk, deleteOk).0.queue == []
  {
    hide Finish, Discard;
    forall c: Bulk
      ensures Finish(c).0.queue == []
    {
      FinishEmpties(c);
    }
  }

  lemma EndFitsRing(b: Bulk, a: Action)
    requires |b.queue| <= QUEUE_DEPTH
    ensures |EndStep(b, a).0.queue| <= QUEUE_DEPTH
  {
    hide Judge, Finish, Discard;
    forall c: Bulk
      ensures Finish(c).0.queue == []
    {
      FinishEmpties(c);
    }
    if a.EndJudge? {
      JudgeEmpties(b, a.syncOk, a.closeOk, a.refreshOk, a.deleteOk);
    }
  }

  lemma StepFitsRing(b: Bulk, a: Action)
    requires |b.queue| <= QUEUE_DEPTH
    ensures |Step(b, a).queue| <= QUEUE_DEPTH
  {
    hide WorkerStep, EndStep, SendOk, Discard;
    if IsEnd(a) {
      EndFitsRing(b, a);
    } else if IsWorker(a) {
      WorkerLeavesTerms(b, a);
    } else if a.Send? && SendOk(b, a.frame) {
      SendHasRoom(b, a.frame);
    }
  }

  /** The queue never outgrows its ring. */
  lemma {:induction false} RunFitsRing(b: Bulk, others: seq<Action>)
    requires |b.queue| <= QUEUE_DEPTH
    ensures |Run(b, others).queue| <= QUEUE_DEPTH
    decreases |others|
  {
    hide Step;
    if others == [] {
    } else {
      var n := |others| - 1;
      RunFitsRing(b, others[..n]);
      StepFitsRing(Run(b, others[..n]), others[n]);
    }
  }

  ghost predicate NoneEnds(c: Close) {
    && NotEnds(c.locked) && NotEnds(c.putting) && NotEnds(c.waiting) && NotEnds(c.judging)
    && NotEnds(c.failing) && NotEnds(c.failingState) && NotEnds(c.aborting)
  }

  lemma HeldStep(b: Bulk, a: Action)
    requires b.ender != NotEnding && !IsEnd(a)
    ensures SameTerms(b, Step(b, a))
  {
    hide Crc16.Of, Crc16.Update, WorkerStep, SameTerms;
    assert SameTerms(b, b) by { SameSelf(b); }
    if IsWorker(a) {
      WorkerLeavesTerms(b, a);
    }
  }

  /** While the ending call holds the lock, the other threads change neither the declaration nor what was accepted. */
  lemma {:induction false} HeldRun(b: Bulk, others: seq<Action>)
    requires b.ender != NotEnding && NotEnds(others)
    ensures SameTerms(b, Run(b, others))
    decreases |others|
  {
    hide Step, IsEnd;
    if others == [] {
    } else {
      var n := |others| - 1;
      HeldRun(b, others[..n]);
      HeldStep(Run(b, others[..n]), others[n]);
    }
  }

  /** The last step ended the transfer with the result `r`. */
  ghost predicate Ended(r: Result, from: Bulk, steps: seq<Action>) {
    steps != [] && EndStep(Run(from, steps[..|steps| - 1]), steps[|steps| - 1]).1 == Some(r)
  }

  lemma EndsWith(from: Bulk, steps: seq<Action>, a: Action)
    requires IsEnd(a) && EndStep(Run(from, steps), a).1.Some?
    ensures Ended(EndStep(Run(from, steps), a).1.value, from, steps + [a])
    ensures Run(from, steps + [a]) == EndStep(Run(from, steps), a).0
  {
    hide Run, EndStep, IsEnd;
    EndRuns(from, steps, a);
    assert (steps + [a])[..|steps|] == steps;
  }

  /** What the last step of the ending call has left. */
  lemma EndLeavesFile(from: Bulk, steps: seq<Action>, a: Action, r: Result)
    requires Inv(from) && Decides(Run(from, steps), a) && EndStep(Run(from, steps), a).1 == Some(r)
    ensures var b := Run(from, steps);
            var c := EndStep(b, a).0;
            && Leaves(r, c.file, b.frames, b.fileSize, b.fileCrc, a.deleteOk)
            && c.state == Idle && !c.fileOpen && c.frames == b.frames
  {
    hide Inv, Run, EndStep, Leaves;
    RunKeepsInv(from, steps);
    VerdictMeans(Run(from, steps), a);
  }

  /** The first thing found wrong by the ending call once the worker is gone. */
  function Fault(b: Bulk, syncOk: bool): ErrorState {
    if b.error != NoError then b.error
    else if b.received != b.fileSize then ByteCountMismatch
    else if b.runningCrc != b.fileCrc then CrcMismatch
    else if !syncOk then FileSync
    else NoError
  }

  lemma JudgeFault(b: Bulk, syncOk: bool, closeOk: bool, refreshOk: bool, deleteOk: bool)
    ensures var e := Fault(b, syncOk);
            Judge(b, syncOk, closeOk, refreshOk, deleteOk) ==
              if e != NoError then Finish(Discard(b.(state := Failed, error := e), closeOk, deleteOk))
              else Finish(b.(state := if closeOk && refreshOk then Success else Failed, fileOpen := false,
                             error := if !closeOk then FileClose else if !refreshOk then RefreshCatalog else NoError))
  {
    hide Discard, Finish;
  }

  /** The worker stopped, if it runs. */
  function Halted(b: Bulk): Bulk { b.(worker := if b.threadFlag then Gone else b.worker, threadFlag := false) }

  /** Stopping the worker first makes no difference to a transfer that is finished. */
  lemma StoppedAnyway(b: Bulk, closeOk: bool, deleteOk: bool)
    ensures Finish(Discard(Halted(b), closeOk, deleteOk)) == Finish(Discard(b, closeOk, deleteOk))
  {
  }

  lemma Unready(from: Bulk)
    requires from.ender == NotEnding && from.state != Receiving
    ensures Run(from, [EndLock]) == from && Ended(Result(from.state, InvalidRequest), from, [EndLock])
  {
    EndsWith(from, [], EndLock);
    assert [] + [EndLock] == [EndLock];
  }

  lemma CleanupEnds(b: Bulk, closeOk: bool, deleteOk: bool)
    requires b.cleanup && b.ender == NotEnding && b.state != Idle && b.error != NoError
    ensures var c := DoCleanup(b, closeOk, deleteOk);
            c.state == Idle && c.file == if deleteOk then [] else b.file
  {
  }

  ghost predicate Foreign(t: Turn) {
    && NotWorkers(t.waiting) && NotWorkers(t.taken) && NotWorkers(t.checked) && NotWorkers(t.wrote)
    && NotWorkers(t.summed) && NotWorkers(t.erring) && NotWorkers(t.marking) && NotWorkers(t.leaving)
  }

  function CreditSteps(t: Turn): seq<Action> { t.wrote + [WorkerSum] + t.summed + [WorkerCount] }

  function FrameSteps(t: Turn): seq<Action> {
    t.taken + [WorkerCheck] + t.checked + [WorkerWrite(t.writtenOk, t.partial)] + CreditSteps(t)
  }

  /** A whole turn: one frame fetched, checked, written, checksummed and counted. */
  function TurnSteps(t: Turn): seq<Action> {
    t.waiting + [WorkerFetch] + FrameSteps(t)
  }

  lemma TurnJoins(steps: seq<Action>, t: Turn)
    ensures steps + t.waiting + [WorkerFetch] + FrameSteps(t) == steps + TurnSteps(t)
  {
    hide FrameSteps;
  }

  lemma FrameJoins(steps: seq<Action>, t: Turn)
    ensures steps + t.taken + [WorkerCheck] + t.checked + [WorkerWrite(t.writtenOk, t.partial)] + CreditSteps(t)
         == steps + FrameSteps(t)
  {
    hide CreditSteps;
  }

  lemma CreditJoins(steps: seq<Action>, t: Turn)
    ensures steps + t.wrote + [WorkerSum] + t.summed + [WorkerCount] == steps + CreditSteps(t)
  {
  }

  function LoopSteps(turns: seq<Turn>): seq<Action> {
    if turns == [] then [] else LoopSteps(turns[..|turns| - 1]) + TurnSteps(turns[|turns| - 1])
  }

  /** The worker's own steps among these. */
  function Own(steps: seq<Action>): seq<Action> {
    if steps == [] then []
    else if IsWorker(steps[0]) then [steps[0]] + Own(steps[1..])
    else Own(steps[1..])
  }

  lemma {:induction false} OwnJoins(a: seq<Action>, b: seq<Action>)
    ensures Own(a + b) == Own(a) + Own(b)
  {
    hide IsWorker;
    if a == [] {
      assert a + b == b;
    } else {
      assert (a + b)[1..] == a[1..] + b;
      OwnJoins(a[1..], b);
    }
  }

  lemma {:induction false} OwnNothing(others: seq<Action>)
    requires NotWorkers(others)
    ensures Own(others) == []
  {
    hide IsWorker;
    if others != [] {
      OwnNothing(others[1..]);
    }
  }

  lemma OwnStep(others: seq<Action>, a: Action)
    requires NotWorkers(others) && IsWorker(a)
    ensures Own(others + [a]) == [a]
  {
    hide IsWorker;
    OwnJoins(others, [a]);
    OwnNothing(others);
  }

  lemma TurnIsWork(t: Turn)
    requires Foreign(t)
    ensures Own(TurnSteps(t)) == [WorkerFetch, WorkerCheck, WorkerWrite(t.writtenOk, t.partial), WorkerSum, WorkerCount]
  {
    hide Own, NotWorkers;
    var w := WorkerWrite(t.writtenOk, t.partial);
    OwnStep(t.waiting, WorkerFetch);
    OwnStep(t.taken, WorkerCheck);
    OwnStep(t.checked, w);
    OwnStep(t.wrote, WorkerSum);
    OwnStep(t.summed, WorkerCount);
    var b := t.wrote + [WorkerSum];
    var c := t.checked + [w];
    var d := t.taken + [WorkerCheck];
    var e := t.waiting + [WorkerFetch];
    OwnJoins(b, t.summed + [WorkerCount]);
    OwnJoins(c, b + (t.summed + [WorkerCount]));
    OwnJoins(d, c + (b + (t.summed + [WorkerCount])));
    OwnJoins(e, d + (c + (b + (t.summed + [WorkerCount]))));
    assert TurnSteps(t) == e + (d + (c + (b + (t.summed + [WorkerCount]))));
  }

  /** A loop that goes on has taken one frame in each turn, and done with it, in this order, all that is to be done. */
  lemma {:induction false} LoopIsWork(turns: seq<Turn>)
    requires forall i :: 0 <= i < |turns| ==> Foreign(turns[i])
    ensures var own := Own(LoopSteps(turns));
            |own| == 5 * |turns| &&
            forall i :: 0 <= i < |turns| ==>
              own[5 * i..5 * i + 5] ==
                [WorkerFetch, WorkerCheck, WorkerWrite(turns[i].writtenOk, turns[i].partial), WorkerSum, WorkerCount]
  {
    hide Own, TurnSteps, Foreign;
    if turns == [] {
      OwnNothing([]);
    } else {
      var n := |turns| - 1;
      LoopIsWork(turns[..n]);
      OwnJoins(LoopSteps(turns[..n]), TurnSteps(turns[n]));
      TurnIsWork(turns[n]);
      var own := Own(LoopSteps(turns));
      assert own[5 * n..5 * n + 5] == Own(TurnSteps(turns[n]));
      forall i | 0 <= i < n
        ensures own[5 * i..5 * i + 5] == Own(LoopSteps(turns[..n]))[5 * i..5 * i + 5]
      {
      }
    }
  }

  /** The last step was another thread's. */
  predicate Interrupted(steps: seq<Action>) { steps != [] && !IsWorker(steps[|steps| - 1]) }

  lemma Interrupts(steps: seq<Action>, others: seq<Action>)
    requires NotWorkers(others)
    ensures others != [] ==> Interrupted(steps + others)
  {
    hide IsWorker;
  }

  /** The last step was the worker's last. */
  ghost predicate Departed(exit: Exit, from: Bulk, steps: seq<Action>) {
    && steps != [] && steps[|steps| - 1] == WorkerSignal
    && Run(from, steps[..|steps| - 1]).worker == Leaving(exit == GaveUp)
  }

  lemma SignalDeparts(from: Bulk, steps: seq<Action>, submit: bool)
    requires Run(from, steps).worker == Leaving(submit)
    ensures Departed(if submit then GaveUp else AtMarker, from, steps + [WorkerSignal])
    ensures Run(from, steps + [WorkerSignal]) == WorkerStep(Run(from, steps), WorkerSignal)
  {
    hide Run, WorkerStep;
    WorkerRuns(from, steps, WorkerSignal);
    assert (steps + [WorkerSignal])[..|steps|] == steps;
  }

  lemma LeavingMeans(b: Bulk)
    requires Inv(b) && b.worker.Leaving?
    ensures b.worker.cleanup ==> b.error != NoError
    ensures !b.worker.cleanup && b.error == NoError ==>
              b.file == Concat(b.frames) && b.received == |b.file| == b.acceptedSize && b.queue == []
              && b.runningCrc == Crc16.Of(b.file)
  {
    hide Crc16.Update, Concat;
    assert b.file[..|b.file| - 0] == b.file;
    assert b.file + [] + Queued([]) == b.file;
  }

  /** A worker that leaves at the marker with no error set has put every accepted byte into the file; one that gives up
      has set an error. */
  lemma DepartureMeans(exit: Exit, from: Bulk, steps: seq<Action>)
    requires Inv(from) && Departed(exit, from, steps)
    ensures var b := Run(from, steps);
            b.done && !b.threadFlag &&
            if exit == GaveUp then b.cleanup && b.error != NoError
            else b.error == NoError ==>
                   b.file == Concat(b.frames) && b.received == |b.file| == b.acceptedSize && b.queue == []
                   && b.runningCrc == Crc16.Of(b.file)
  {
    hide Crc16.Update, Concat, Inv, Run;
    var n := |steps| - 1;
    var b := Run(from, steps[..n]);
    assert steps == steps[..n] + [WorkerSignal];
    WorkerRuns(from, steps[..n], WorkerSignal);
    RunKeepsInv(from, steps[..n]);
    LeavingMeans(b);
  }

  class Controller {
    var block: Block
    const queue: MsgQueue
    var threadFlag: bool
    var done: bool
    var cleanup: bool
    var file: seq<Byte>

    /** Where the two threads are. Stopping or starting the worker changes its place. */
    var worker: Worker
    var ender: Ender

    /** History: the frames accepted since the transfer started. */
    var frames: seq<seq<Byte>>

    ghost predicate Valid()
      reads this, queue, queue.slots
    {
      queue.Valid()
    }

    function View(): (b: Bulk)
      reads this, queue, queue.slots
      requires Valid()
      ensures b.worker == worker && b.ender == ender
    {
      Bulk(block.state, block.error, block.fileSize, block.fileCrc, block.acceptedSize, block.received,
           block.runningCrc, block.nextFrame, queue.Contents(), threadFlag, done, cleanup, worker, ender, file,
           block.fileOpen, frames)
    }

    lemma ViewFile()
      requires Valid()
      ensures var b := View();
              && b.file == file && b.frames == frames && b.fileSize == block.fileSize && b.fileCrc == block.fileCrc
              && b.state == block.state && b.fileOpen == block.fileOpen
    {
    }

    constructor ()
      ensures Valid() && View() == IDLE && fresh(queue) && fresh(queue.slots)
    {
      queue := new MsgQueue();
      block := CLEAR;
      threadFlag, done, cleanup, file, worker, ender, frames := false, false, false, [], Gone, NotEnding, [];
    }

    // ---- the other threads ----

    method Refill(items: seq<Item>)
      requires Valid() && |items| <= QUEUE_DEPTH
      modifies queue, queue.slots
      ensures Valid() && queue.Contents() == items
    {
      queue.Purge();
      for i := 0 to |items|
        invariant Valid() && queue.Contents() == items[..i]
      {
        var _ := queue.Put(items[i]);
      }
    }

    /** The other threads do the steps given. */
    method Yield(others: seq<Action>)
      requires Valid()
      modifies this, queue, queue.slots
      ensures Valid() && View() == Run(old(View()), others)
    {
      hide Run;
      var b := Run(View(), others);
      RunFitsRing(View(), others);
      block := Block(b.state, b.error, b.fileSize, b.fileCrc, b.acceptedSize, b.received, b.runningCrc, b.nextFrame,
                     b.fileOpen);
      threadFlag, done, cleanup := b.threadFlag, b.done, b.cleanup;
      file, worker, ender, frames := b.file, b.worker, b.ender, b.frames;
      Refill(b.queue);
    }

    // ---- starting and sending ----

    method SetToDefault()
      requires Valid()
      modifies this`block, this`threadFlag, this`done, this`worker, queue`head, queue`count
      ensures Valid() && View() == ToDefault(old(View()))
    {
      queue.Purge();
      if threadFlag {
        worker := Gone;
      }
      block, threadFlag, done := CLEAR, false, false;
    }

    method StartTransfer(size: nat, crc: Crc) returns (ok: bool)
      requires Valid()
      modifies this, queue
      ensures Valid() && View() == Step(old(View()), Start(size, crc))
      ensures ok <==> old(ender == NotEnding && block.state == Idle) && size > 0
    {
      hide Ring;
      if size == 0 || ender != NotEnding || block.state != Idle {
        return false;
      }
      SetToDefault();
      file, frames := [], [];
      block := block.(fileOpen := true);
      block := block.(fileSize := size, fileCrc := crc, runningCrc := Crc16.INIT);
      threadFlag, worker := true, Fetching;
      block := block.(state := Receiving);
      ok := true;
    }

    method SendData(f: Frame) returns (ok: bool)
      requires Valid()
      modifies this, queue, queue.slots
      ensures Valid() && View() == DoSend(old(View()), f) && ok == SendOk(old(View()), f)
    {
      hide Crc16.Update, Ring;
      if |f.data| == 0 || |f.data| > MAX_FRAME || ender != NotEnding || block.state != Receiving ||
          block.error != NoError {
        return false;
      }
      if f.id != block.nextFrame || block.acceptedSize > block.fileSize ||
          |f.data| > block.fileSize - block.acceptedSize {
        return false;
      }
      var crc := Crc16.UpdateLoop(Crc16.INIT, f.data);
      if crc != f.crc {
        return false;
      }
      ok := queue.Put(Data(f.data));
      if ok {
        block := block.(acceptedSize := block.acceptedSize + |f.data|, nextFrame := block.nextFrame + 1);
        frames := frames + [f.data];
      }
    }

    // ---- the worker ----

    /** The other threads' steps, behind those done so far. */
    method Others(others: seq<Action>, ghost from: Bulk, ghost steps: seq<Action>)
      requires Valid() && View() == Run(from, steps)
      modifies this, queue, queue.slots
      ensures Valid() && View() == Run(from, steps + others)
      ensures others == [] ==> View() == old(View())
    {
      hide Run;
      RunOne(View(), [], EndLock);
      Yield(others);
      RunAppend(from, steps, others);
    }

    /** The other threads' steps; false means that they stopped the worker. A worker stopped and started anew while this
        one was fetching is at the same place, and the loop goes on as the new one. */
    method StillHere(others: seq<Action>, ghost from: Bulk, ghost steps: seq<Action>) returns (here: bool)
      requires Valid() && View() == Run(from, steps) && NotWorkers(others)
      modifies this, queue, queue.slots
      ensures Valid() && View() == Run(from, steps + others)
      ensures if here then worker == old(worker) else Interrupted(steps + others)
    {
      hide Run, NotWorkers, Interrupted;
      var was := worker;
      Interrupts(steps, others);
      Others(others, from, steps);
      here := worker == was;
    }

    /** The next message, if there is one. */
    method Fetch() returns (got: bool)
      requires Valid() && worker == Fetching
      modifies this, queue
      ensures Valid() && queue.slots[..] == old(queue.slots[..])
      ensures View() == WorkerStep(old(View()), if got then WorkerFetch else WorkerTimeout)
      ensures got ==> worker == Leaving(false) || worker.Taken?
      ensures !got ==> worker == Erring(TimeOut, [], 0)
    {
      hide Ring;
      var item;
      got, item := queue.Get();
      if !got {
        worker := Erring(TimeOut, [], 0);
      } else if item.End? {
        worker := Leaving(false);
      } else {
        worker := Taken(item.bytes);
      }
    }

    method CheckState(d: seq<Byte>) returns (ok: bool)
      requires Valid() && worker == Taken(d)
      modifies this`worker
      ensures View() == WorkerStep(old(View()), WorkerCheck)
      ensures if ok then worker == Checked(d) else worker == Erring(QueueError, d, 0)
    {
      hide Ring;
      ok := block.state == Receiving || block.state == Finalizing;
      worker := if ok then Checked(d) else Erring(QueueError, d, 0);
    }

    method WriteToFile(d: seq<Byte>, writtenOk: bool, partial: nat) returns (ok: bool)
      requires Valid() && worker == Checked(d)
      modifies this`worker, this`file
      ensures View() == WorkerStep(old(View()), WorkerWrite(writtenOk, partial))
      ensures if ok then worker == Wrote(d) else worker.Erring?
    {
      hide Ring;
      if block.state != Receiving && block.state != Finalizing {
        worker := Erring(WriteError, d, 0);
        return false;
      }
      var n := if writtenOk then |d| else Min(partial, |d|);
      file := file + d[..n];
      ok := writtenOk;
      worker := if ok then Wrote(d) else Erring(WriteError, d, n);
      assert d[..|d|] == d;
    }

    method SumFrame(d: seq<Byte>)
      requires Valid() && worker == Wrote(d)
      modifies this`worker, this`block
      ensures View() == WorkerStep(old(View()), WorkerSum) && worker == Summed(d)
    {
      hide Crc16.Update, Ring;
      var crc := Crc16.UpdateLoop(block.runningCrc, d);
      block := block.(runningCrc := crc);
      worker := Summed(d);
    }

    method CountFrame(d: seq<Byte>)
      requires Valid() && worker == Summed(d)
      modifies this`worker, this`block
      ensures View() == WorkerStep(old(View()), WorkerCount) && worker == Fetching
    {
      hide Ring;
      block := block.(received := block.received + |d|);
      worker := Fetching;
    }

    method SignalDone(submit: bool)
      requires Valid() && worker == Leaving(submit)
      modifies this`worker, this`threadFlag, this`done, this`cleanup
      ensures View() == WorkerStep(old(View()), WorkerSignal)
      ensures worker == Gone && !threadFlag && done && (submit ==> cleanup)
    {
      hide Ring;
      threadFlag, done := false, true;
      if submit {
        cleanup := true;
      }
      worker := Gone;
    }

    method CreditFrame(t: Turn, d: seq<Byte>, ghost from: Bulk, ghost steps: seq<Action>)
      returns (exit: Exit, ghost after: seq<Action>)
      requires Valid() && View() == Run(from, steps) && worker == Wrote(d) && Foreign(t)
      modifies this, queue, queue.slots
      ensures Valid() && View() == Run(from, after) && (exit == Running || exit == Stopped)
      ensures exit == Running ==>
                worker == Fetching && after == steps + CreditSteps(t)
      ensures exit == Stopped ==> Interrupted(after)
    {
      hide Run, WorkerStep, CreditSteps, Interrupted, NotWorkers, View;
      var here := StillHere(t.wrote, from, steps);
      after := steps + t.wrote;
      if !here {
        return Stopped, after;
      }
      SumFrame(d);
      WorkerRuns(from, after, WorkerSum);
      after := after + [WorkerSum];
      here := StillHere(t.summed, from, after);
      after := after + t.summed;
      if !here {
        return Stopped, after;
      }
      CountFrame(d);
      WorkerRuns(from, after, WorkerCount);
      after := after + [WorkerCount];
      CreditJoins(steps, t);
      exit := Running;
    }

    method MarkError(e: ErrorState)
      requires Valid() && worker.Erring? && worker.e == e
      modifies this`worker, this`block
      ensures View() == WorkerStep(old(View()), WorkerMark) && worker == Marking
    {
      hide Ring;
      block := block.(error := e);
      worker := Marking;
    }

    method MarkFailed()
      requires Valid() && worker == Marking
      modifies this`worker, this`block
      ensures View() == WorkerStep(old(View()), WorkerFail) && worker == Leaving(true)
    {
      hide Ring;
      block := block.(state := Failed);
      worker := Leaving(true);
    }

    /** An error: it is noted, the transfer is marked failed, and the cleanup is submitted. */
    method GiveUp(t: Turn, ghost from: Bulk, ghost steps: seq<Action>) returns (exit: Exit, ghost after: seq<Action>)
      requires Valid() && View() == Run(from, steps) && worker.Erring? && Foreign(t)
      modifies this, queue, queue.slots
      ensures Valid() && View() == Run(from, after) && (exit == Stopped || exit == GaveUp)
      ensures exit == GaveUp ==> Departed(GaveUp, from, after)
      ensures exit == Stopped ==> Interrupted(after)
    {
      hide Run, WorkerStep, Departed, TurnSteps, FrameSteps, CreditSteps, Interrupted, NotWorkers, View;
      var was := worker;
      var here := StillHere(t.erring, from, steps);
      after := steps + t.erring;
      if !here {
        return Stopped, after;
      }
      MarkError(was.e);
      WorkerRuns(from, after, WorkerMark);
      after := after + [WorkerMark];
      here := StillHere(t.marking, from, after);
      after := after + t.marking;
      if !here {
        return Stopped, after;
      }
      MarkFailed();
      WorkerRuns(from, after, WorkerFail);
      after := after + [WorkerFail];
      here := StillHere(t.leaving, from, after);
      after := after + t.leaving;
      if !here {
        return Stopped, after;
      }
      SignalDeparts(from, after, true);
      SignalDone(true);
      exit, after := GaveUp, after + [WorkerSignal];
    }

    /** A frame in hand: checked, written, checksummed and counted. */
    method StoreFrame(t: Turn, d: seq<Byte>, ghost from: Bulk, ghost steps: seq<Action>)
      returns (exit: Exit, ghost after: seq<Action>)
      requires Valid() && View() == Run(from, steps) && worker == Taken(d) && Foreign(t)
      modifies this, queue, queue.slots
      ensures Valid() && View() == Run(from, after)
      ensures exit == Running ==> worker == Fetching && after == steps + FrameSteps(t)
      ensures exit == AtMarker || exit == GaveUp ==> Departed(exit, from, after)
      ensures exit == Stopped ==> Interrupted(after)
    {
      hide Run, WorkerStep, Departed, TurnSteps, FrameSteps, CreditSteps, Interrupted, NotWorkers, View;
      var here := StillHere(t.taken, from, steps);
      after := steps + t.taken;
      if !here {
        return Stopped, after;
      }
      var ok := CheckState(d);
      WorkerRuns(from, after, WorkerCheck);
      after := after + [WorkerCheck];
      if ok {
        here := StillHere(t.checked, from, after);
        after := after + t.checked;
        if !here {
          return Stopped, after;
        }
        ok := WriteToFile(d, t.writtenOk, t.partial);
        WorkerRuns(from, after, WorkerWrite(t.writtenOk, t.partial));
        after := after + [WorkerWrite(t.writtenOk, t.partial)];
      }
      if !ok {
        exit, after := GiveUp(t, from, after);
      } else {
        exit, after := CreditFrame(t, d, from, after);
        FrameJoins(steps, t);
      }
    }

    /** One turn of the loop; `Running` means that it comes round again. A worker that finds itself elsewhere after
        other threads ran was stopped by them. */
    method OneTurn(t: Turn, ghost from: Bulk, ghost steps: seq<Action>) returns (exit: Exit, ghost after: seq<Action>)
      requires Valid() && View() == Run(from, steps) && worker == Fetching && Foreign(t)
      modifies this, queue, queue.slots
      ensures Valid() && View() == Run(from, after)
      ensures exit == Running ==> worker == Fetching && after == steps + TurnSteps(t)
      ensures exit == AtMarker || exit == GaveUp ==> Departed(exit, from, after)
      ensures exit == Stopped ==> Interrupted(after)
    {
      hide Run, WorkerStep, Departed, TurnSteps, FrameSteps, CreditSteps, Interrupted, NotWorkers, View;
      var here := StillHere(t.waiting, from, steps);
      after := steps + t.waiting;
      if !here {
        return Stopped, after;
      }
      var got := Fetch();
      WorkerRuns(from, after, if got then WorkerFetch else WorkerTimeout);
      after := after + [if got then WorkerFetch else WorkerTimeout];
      if !got {
        exit, after := GiveUp(t, from, after);
      } else if worker == Leaving(false) {
        SignalDeparts(from, after, false);
        SignalDone(false);
        exit, after := AtMarker, after + [WorkerSignal];
      } else {
        exit, after := StoreFrame(t, worker.held, from, after);
        TurnJoins(steps, t);
      }
    }

    /** The worker thread, for as many turns as there are. Whatever the other threads do in between, its steps are a run
        of the transfer. Left at the end marker with no error set, the file holds every accepted byte. */
    method WorkerLoop(turns: seq<Turn>) returns (exit: Exit, ghost steps: seq<Action>)
      requires Valid() && worker == Fetching && forall i :: 0 <= i < |turns| ==> Foreign(turns[i])
      modifies this, queue, queue.slots
      ensures Valid() && View() == Run(old(View()), steps)
      ensures exit == Running ==> worker == Fetching && steps == LoopSteps(turns)
      ensures exit == Stopped ==> Interrupted(steps)
      ensures exit == AtMarker || exit == GaveUp ==> Departed(exit, old(View()), steps)
      ensures Inv(old(View())) ==> Inv(View())
      ensures Inv(old(View())) && exit == GaveUp ==> block.error != NoError && cleanup && done && !threadFlag
      ensures Inv(old(View())) && exit == AtMarker && block.error == NoError ==>
                && file == Concat(frames) && block.received == |file| == block.acceptedSize && queue.Contents() == []
                && block.runningCrc == Crc16.Of(file) && done && !threadFlag
    {
      hide Run, WorkerStep, Departed, Inv, Concat, Crc16.Of, Foreign, Interrupted;
      ghost var from := View();
      steps := [];
      RunOne(from, [], WorkerFetch);
      for i := 0 to |turns|
        invariant Valid() && View() == Run(from, steps) && worker == Fetching && steps == LoopSteps(turns[..i])
      {
        assert turns[..i + 1][..i] == turns[..i];
        exit, steps := OneTurn(turns[i], from, steps);
        if exit != Running {
          if Inv(from) {
            RunKeepsInv(from, steps);
            if exit != Stopped {
              DepartureMeans(exit, from, steps);
            }
          }
          return;
        }
      }
      assert turns[..|turns|] == turns;
      if Inv(from) {
        RunKeepsInv(from, steps);
      }
      exit := Running;
    }

    // ---- the end of a transfer ----

    /** The other threads' steps while the transfer lock is held. */
    method Held(others: seq<Action>, ghost from: Bulk, ghost steps: seq<Action>)
      requires Valid() && View() == Run(from, steps) && ender != NotEnding && NotEnds(others)
      modifies this, queue, queue.slots
      ensures Valid() && View() == Run(from, steps + others) && ender == old(ender)
      ensures block.fileSize == old(block.fileSize) && block.fileCrc == old(block.fileCrc) && frames == old(frames)
    {
      hide Run;
      HeldRun(View(), others);
      Others(others, from, steps);
      RunAppend(from, steps, others);
    }

    method BeginEnd()
      requires Valid() && ender == NotEnding && block.state == Receiving
      modifies this`ender
      ensures View() == EndStep(old(View()), EndLock).0 && ender == Locked
    {
      ender := Locked;
    }

    method MarkFinalizing()
      requires Valid() && ender == Locked
      modifies this`ender, this`block
      ensures View() == EndStep(old(View()), EndFinalize).0 && ender == Putting
      ensures block == old(block).(state := Finalizing)
    {
      block := block.(state := Finalizing);
      ender := Putting;
    }

    method PutMarker() returns (ok: bool)
      requires Valid() && ender == Putting
      modifies this`ender, queue, queue.slots
      ensures Valid() && View() == EndStep(old(View()), if ok then EndPut else EndPutTimeout).0
      ensures ender == if ok then Waiting else Failing(QueueError)
    {
      ok := queue.Put(End);
      ender := if ok then Waiting else Failing(QueueError);
    }

    method TakeDone() returns (ok: bool)
      requires Valid() && ender == Waiting
      modifies this`ender, this`done
      ensures View() == EndStep(old(View()), if ok then EndTake else EndTakeTimeout).0
      ensures ender == if ok then Judging else Failing(TimeOut)
    {
      ok := done;
      done := false;
      ender := if ok then Judging else Failing(TimeOut);
    }

    method NoteError(e: ErrorState)
      requires Valid() && ender == Failing(e)
      modifies this`ender, this`block
      ensures View() == EndStep(old(View()), EndFailError).0 && ender == FailingState
      ensures block == old(block).(error := e)
    {
      hide Ring;
      block := block.(error := e);
      ender := FailingState;
    }

    method NoteFailed()
      requires Valid() && ender == FailingState
      modifies this`ender, this`block
      ensures View() == EndStep(old(View()), EndFailState).0 && ender == Aborting
      ensures block == old(block).(state := Failed)
    {
      hide Ring;
      block := block.(state := Failed);
      ender := Aborting;
    }

    method StopWorker()
      requires Valid()
      modifies this`threadFlag, this`worker
      ensures View() == Halted(old(View()))
    {
      if threadFlag {
        worker, threadFlag := Gone, false;
      }
    }

    method CloseFile(closeOk: bool)
      requires Valid()
      modifies this`block
      ensures View() == Closed(old(View()), closeOk)
    {
      if block.fileOpen {
        block := block.(fileOpen := false);
        if !closeOk && block.error == NoError {
          block := block.(error := FileClose);
        }
      }
    }

    method DeleteFile(deleteOk: bool)
      requires Valid()
      modifies this`block, this`file
      ensures View() == Deleted(old(View()), deleteOk)
    {
      if deleteOk {
        file := [];
      } else {
        block := block.(error := FileDelete);
      }
    }

    /** The failing exit: the worker is stopped, and what was written is closed and deleted. */
    method DropFile(closeOk: bool, deleteOk: bool)
      requires Valid()
      modifies this`block, this`threadFlag, this`worker, this`file
      ensures View() == Discard(Halted(old(View())), closeOk, deleteOk)
    {
      hide View, Halted, Closed, Deleted;
      StopWorker();
      CloseFile(closeOk);
      DeleteFile(deleteOk);
    }

    /** The cleanup work item: a transfer that has an error is ended, and what was written of it is deleted. */
    method CleanUp(closeOk: bool, deleteOk: bool)
      requires Valid()
      modifies this`block, this`threadFlag, this`done, this`cleanup, this`worker, this`file, queue`head, queue`count
      ensures Valid() && View() == Step(old(View()), Cleanup(closeOk, deleteOk))
      ensures old(cleanup && ender == NotEnding && block.state != Idle && block.error != NoError) ==>
                block.state == Idle && file == if deleteOk then [] else old(file)
    {
      hide ToDefault, Closed, Deleted, Ring;
      ghost var b := View();
      if !cleanup || ender != NotEnding {
        return;
      }
      cleanup := false;
      if block.error == NoError || block.state == Idle {
        return;
      }
      block := block.(state := Failed);
      CloseFile(closeOk);
      DeleteFile(deleteOk);
      SetToDefault();
      CleanupEnds(b, closeOk, deleteOk);
    }

    /** The common exit: the result is what the transfer came to, and everything goes back to its default. */
    method FinishEnd() returns (r: Result)
      requires Valid()
      modifies this`block, this`threadFlag, this`done, this`worker, this`ender, queue`head, queue`count
      ensures Valid() && (View(), r) == Finish(old(View())) && ender == NotEnding
    {
      r := Result(block.state, block.error);
      SetToDefault();
      ender := NotEnding;
    }

    /** What is wrong with the transfer, as far as it shows before the file is closed. */
    method Inspect(syncOk: bool) returns (e: ErrorState)
      requires Valid()
      modifies this`block
      ensures e == Fault(old(View()), syncOk)
      ensures View() == old(View()).(state := if e == NoError then Success else Failed, error := e)
      ensures e == NoError ==> block.state == Success && block.error == NoError
    {
      e := block.error;
      if block.error != NoError {
        block := block.(state := Failed);
      } else if block.received != block.fileSize {
        e := ByteCountMismatch;
        block := block.(error := e, state := Failed);
      } else if block.runningCrc != block.fileCrc {
        e := CrcMismatch;
        block := block.(error := e, state := Failed);
      } else if !syncOk {
        e := FileSync;
        block := block.(error := e, state := Failed);
      } else {
        block := block.(state := Success);
      }
    }

    /** The successful exit: the file is closed and the catalog refreshed. */
    method KeepFile(closeOk: bool, refreshOk: bool)
      requires Valid() && block.state == Success && block.error == NoError
      modifies this`block
      ensures View() == old(View()).(
                state := if closeOk && refreshOk then Success else Failed, fileOpen := false,
                error := if !closeOk then FileClose else if !refreshOk then RefreshCatalog else NoError)
    {
      block := block.(fileOpen := false);
      if !closeOk {
        block := block.(error := FileClose, state := Failed);
      } else if !refreshOk {
        block := block.(error := RefreshCatalog, state := Failed);
      }
    }

    method JudgeTransfer(syncOk: bool, closeOk: bool, refreshOk: bool, deleteOk: bool) returns (r: Result)
      requires Valid() && ender == Judging
      modifies this`block, this`threadFlag, this`done, this`worker, this`ender, this`file, queue`head, queue`count
      ensures Valid() && (View(), Some(r)) == EndStep(old(View()), EndJudge(syncOk, closeOk, refreshOk, deleteOk))
      ensures ender == NotEnding
    {
      hide Discard, Finish, Fault, Judge, Halted, View;
      ghost var was := View();
      JudgeFault(was, syncOk, closeOk, refreshOk, deleteOk);
      var e := Inspect(syncOk);
      if e != NoError {
        StoppedAnyway(View(), closeOk, deleteOk);
        DropFile(closeOk, deleteOk);
      } else {
        KeepFile(closeOk, refreshOk);
      }
      r := FinishEnd();
    }

    /** The end marker is queued, and the worker's answer awaited. */
    method AwaitWorker(io: Close, ghost from: Bulk, ghost steps: seq<Action>)
      returns (ok: bool, ghost after: seq<Action>)
      requires Valid() && View() == Run(from, steps) && ender == Putting && NoneEnds(io)
      modifies this, queue, queue.slots
      ensures Valid() && View() == Run(from, after)
      ensures if ok then ender == Judging else ender.Failing?
      ensures block.fileSize == old(block.fileSize) && block.fileCrc == old(block.fileCrc) && frames == old(frames)
    {
      hide Run, EndStep, NotEnds;
      Held(io.putting, from, steps);
      after := steps + io.putting;
      ok := PutMarker();
      EndRuns(from, after, if ok then EndPut else EndPutTimeout);
      after := after + [if ok then EndPut else EndPutTimeout];
      if ok {
        Held(io.waiting, from, after);
        after := after + io.waiting;
        ok := TakeDone();
        EndRuns(from, after, if ok then EndTake else EndTakeTimeout);
        after := after + [if ok then EndTake else EndTakeTimeout];
      }
    }

    /** The worker is done: the verdict. */
    method Conclude(io: Close, ghost from: Bulk, ghost steps: seq<Action>) returns (r: Result, ghost after: seq<Action>)
      requires Valid() && View() == Run(from, steps) && ender == Judging && NoneEnds(io)
      modifies this, queue, queue.slots
      ensures Valid() && View() == Run(from, after) && Ended(r, from, after) && ender == NotEnding
      ensures Inv(from) ==>
                && Leaves(r, file, old(frames), old(block.fileSize), old(block.fileCrc), io.deleteOk)
                && block.state == Idle && !block.fileOpen && frames == old(frames)
    {
      hide Run, EndStep, Inv, Ended, Leaves, NotEnds;
      Held(io.judging, from, steps);
      after := steps + io.judging;
      ghost var verdict := EndJudge(io.syncOk, io.closeOk, io.refreshOk, io.deleteOk);
      r := JudgeTransfer(io.syncOk, io.closeOk, io.refreshOk, io.deleteOk);
      EndsWith(from, after, verdict);
      if Inv(from) {
        EndLeavesFile(from, after, verdict, r);
      }
      after := after + [verdict];
    }

    method AbortTransfer(closeOk: bool, deleteOk: bool) returns (r: Result)
      requires Valid() && ender == Aborting
      modifies this`block, this`threadFlag, this`done, this`worker, this`ender, this`file, queue`head, queue`count
      ensures Valid() && (View(), Some(r)) == EndStep(old(View()), EndAbort(closeOk, deleteOk)) && ender == NotEnding
    {
      hide Discard;
      DropFile(closeOk, deleteOk);
      r := FinishEnd();
    }

    /** The queue was full or the worker did not answer: the transfer is marked failed. */
    method Fail(io: Close, e: ErrorState, ghost from: Bulk, ghost steps: seq<Action>) returns (ghost after: seq<Action>)
      requires Valid() && View() == Run(from, steps) && ender == Failing(e) && NoneEnds(io)
      modifies this, queue, queue.slots
      ensures Valid() && View() == Run(from, after) && ender == Aborting
      ensures block.fileSize == old(block.fileSize) && block.fileCrc == old(block.fileCrc) && frames == old(frames)
    {
      hide Run, EndStep, NotEnds, View;
      Held(io.failing, from, steps);
      after := steps + io.failing;
      NoteError(e);
      EndRuns(from, after, EndFailError);
      after := after + [EndFailError];
      Held(io.failingState, from, after);
      after := after + io.failingState;
      NoteFailed();
      EndRuns(from, after, EndFailState);
      after := after + [EndFailState];
    }

    /** A transfer marked failed is dropped. */
    method Abandon(io: Close, ghost from: Bulk, ghost steps: seq<Action>) returns (r: Result, ghost after: seq<Action>)
      requires Valid() && View() == Run(from, steps) && ender == Aborting && NoneEnds(io)
      modifies this, queue, queue.slots
      ensures Valid() && View() == Run(from, after) && Ended(r, from, after) && ender == NotEnding
      ensures Inv(from) ==>
                && Leaves(r, file, old(frames), old(block.fileSize), old(block.fileCrc), io.deleteOk)
                && block.state == Idle && !block.fileOpen && frames == old(frames)
    {
      hide Run, EndStep, Inv, Ended, Leaves, NotEnds, View;
      Held(io.aborting, from, steps);
      after := steps + io.aborting;
      ghost var verdict := EndAbort(io.closeOk, io.deleteOk);
      ViewFile();
      r := AbortTransfer(io.closeOk, io.deleteOk);
      ViewFile();
      EndsWith(from, after, verdict);
      if Inv(from) {
        EndLeavesFile(from, after, verdict, r);
      }
      after := after + [verdict];
    }

    /** The ending call. A success means a closed file of the size and checksum declared, made of the frames
        accepted, and a failure that the file is gone, unless it was whole or could not be deleted. */
    method EndTransfer(io: Close) returns (r: Result, ghost steps: seq<Action>)
      requires Valid() && ender == NotEnding && NoneEnds(io)
      modifies this, queue, queue.slots
      ensures Valid() && View() == Run(old(View()), steps) && Ended(r, old(View()), steps) && ender == NotEnding
      ensures Inv(old(View())) ==> Inv(View())
      ensures old(block.state) != Receiving ==> r == Result(old(block.state), InvalidRequest) && View() == old(View())
      ensures Inv(old(View())) && r == Result(Success, NoError) ==>
                && file == Concat(frames) && frames == old(frames) && !block.fileOpen
                && |file| == old(block.fileSize) && Crc16.Of(file) == old(block.fileCrc)
      ensures Inv(old(View())) && old(block.state) == Receiving ==>
                && Leaves(r, file, old(frames), old(block.fileSize), old(block.fileCrc), io.deleteOk)
                && block.state == Idle && !block.fileOpen && frames == old(frames)
    {
      hide Run, EndStep, Inv, Ended, Concat, Crc16.Of, NotEnds;
      ghost var from := View();
      steps := [];
      RunOne(from, [], EndLock);
      if block.state != Receiving {
        Unready(from);
        r, steps := Result(block.state, InvalidRequest), [EndLock];
        return;
      }
      BeginEnd();
      EndRuns(from, steps, EndLock);
      steps := steps + [EndLock];
      Held(io.locked, from, steps);
      steps := steps + io.locked;
      MarkFinalizing();
      EndRuns(from, steps, EndFinalize);
      steps := steps + [EndFinalize];
      var ok;
      ok, steps := AwaitWorker(io, from, steps);
      if ok {
        r, steps := Conclude(io, from, steps);
      } else {
        steps := Fail(io, ender.e, from, steps);
        r, steps := Abandon(io, from, steps);
      }
      if Inv(from) {
        RunKeepsInv(from, steps);
      }
    }
  }
}
