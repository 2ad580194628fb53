/** How a transfer in which something failed comes to its end, and that the next one can begin. */
module BulkFailure {
  import opened Bytes
  import opened Register16
  import opened BulkTransfer
  import opened BulkVerdict

  lemma RunThree(b: Bulk, x: Action, y: Action, z: Action)
    ensures Run(b, [x, y, z]) == Step(Step(Step(b, x), y), z)
  {
    hide Step, Run;
    RunOne(b, [], x);
    RunOne(b, [x], y);
    RunOne(b, [x, y], z);
    assert [] + [x] == [x] && [x] + [y] == [x, y] && [x, y] + [z] == [x, y, z];
  }

  // ---- the worker gives up ----

  /** What a worker does that ran into an error. */
  const GIVING_UP: seq<Action> := [WorkerMark, WorkerFail, WorkerSignal]

  lemma Marks(b: Bulk)
    ensures b.worker.Erring? ==> Step(b, WorkerMark) == b.(error := b.worker.e, worker := Marking)
  {
  }

  lemma Fails(b: Bulk)
    ensures b.worker == Marking ==> Step(b, WorkerFail) == b.(state := Failed, worker := Leaving(true))
  {
  }

  lemma Signals(b: Bulk)
    ensures b.worker == Leaving(true) ==>
              Step(b, WorkerSignal) == b.(threadFlag := false, done := true, cleanup := true, worker := Gone)
  {
  }

  /** The error is noted, the transfer failed and a cleanup asked for; nothing else changes. */
  lemma WorkerGivesUp(b: Bulk)
    requires b.worker.Erring?
    ensures Run(b, GIVING_UP) == b.(error := b.worker.e, state := Failed, threadFlag := false, done := true,
                                    cleanup := true, worker := Gone)
  {
    hide Step, Run;
    RunThree(b, WorkerMark, WorkerFail, WorkerSignal);
    Marks(b);
    Fails(Step(b, WorkerMark));
    Signals(Step(Step(b, WorkerMark), WorkerFail));
  }

  /** At rest, with no file and nothing to clean up. */
  predicate Dropped(b: Bulk) { b == AtRest(b) && b.file == [] && !b.cleanup }

  lemma CleanedUp(b: Bulk, closeOk: bool)
    requires Inv(b) && b.ender == NotEnding && b.state != Idle && b.error != NoError && b.cleanup
    ensures Dropped(Step(b, Cleanup(closeOk, true)))
  {
    hide Flow, Marker;
    CleanupKeeps(b, closeOk, true);
    CleanupMeans(b, closeOk, true);
  }

  lemma ErringFails(b: Bulk)
    requires Inv(b) && b.worker.Erring?
    ensures b.worker.e != NoError && b.state != Idle
  {
    hide Flow, Marker;
  }

  /** Unless the transfer is being ended anyway, the cleanup then drops it, file and all. */
  lemma GivenUpIsDropped(b: Bulk, closeOk: bool)
    requires Inv(b) && b.worker.Erring? && b.ender == NotEnding
    ensures Dropped(Run(b, GIVING_UP + [Cleanup(closeOk, true)]))
  {
    hide Inv, Run, Step, Dropped;
    ErringFails(b);
    WorkerGivesUp(b);
    RunKeepsInv(b, GIVING_UP);
    RunOne(b, GIVING_UP, Cleanup(closeOk, true));
    CleanedUp(Run(b, GIVING_UP), closeOk);
  }

  /** A sender that stops: when the worker's time is up with nothing queued, the transfer is dropped for a timeout. */
  lemma StarvedIsDropped(b: Bulk, closeOk: bool)
    requires Inv(b) && b.worker == Fetching && b.queue == [] && b.ender == NotEnding
    ensures var c := Step(b, WorkerTimeout);
            c == b.(worker := Erring(TimeOut, [], 0)) && Dropped(Run(c, GIVING_UP + [Cleanup(closeOk, true)]))
  {
    hide Inv, Run, Dropped;
    StepKeepsInv(b, WorkerTimeout);
    GivenUpIsDropped(Step(b, WorkerTimeout), closeOk);
  }

  /** With something queued there is no timeout. */
  lemma FedGoesOn(b: Bulk)
    requires b.worker == Fetching && b.queue != []
    ensures Step(b, WorkerTimeout) == b
  {
  }

  /** A write that fails, at any byte: what was written of it is dropped with the rest. */
  lemma FailedWriteIsDropped(b: Bulk, n: nat, closeOk: bool)
    requires Inv(b) && b.worker.Checked? && CanProcess(b) && b.ender == NotEnding
    ensures var c := Step(b, WorkerWrite(false, n));
            && b.file <= c.file <= b.file + b.worker.held && c.worker.Erring? && c.worker.e == WriteError
            && Dropped(Run(c, GIVING_UP + [Cleanup(closeOk, true)]))
  {
    hide Inv, Run, Dropped;
    StepKeepsInv(b, WorkerWrite(false, n));
    GivenUpIsDropped(Step(b, WorkerWrite(false, n)), closeOk);
  }

  /** A frame that is taken when the transfer has failed already is not written. */
  lemma LateFrameIsDropped(b: Bulk, closeOk: bool)
    requires Inv(b) && b.worker.Taken? && !CanProcess(b) && b.ender == NotEnding
    ensures var c := Step(b, WorkerCheck);
            && c == b.(worker := Erring(QueueError, b.worker.held, 0))
            && Dropped(Run(c, GIVING_UP + [Cleanup(closeOk, true)]))
  {
    hide Inv, Run, Dropped;
    StepKeepsInv(b, WorkerCheck);
    GivenUpIsDropped(Step(b, WorkerCheck), closeOk);
  }

  /** After that the next transfer can start. */
  lemma DroppedStarts(b: Bulk, size: nat, crc: Crc)
    requires Dropped(b) && size > 0
    ensures Step(b, Start(size, crc)) == IDLE.(state := Receiving, fileSize := size, fileCrc := crc, threadFlag := true,
                                               worker := Fetching, fileOpen := true)
  {
  }

  // ---- the ending call gives up ----

  lemma ErrorIsNoted(b: Bulk, e: ErrorState)
    requires b.ender == Failing(e)
    ensures Step(b, EndFailError) == b.(error := e, ender := FailingState)
  {
    hide DoSend, WorkerStep, DoCleanup, Judge, Discard, Finish;
  }

  lemma FailureIsNoted(b: Bulk)
    requires b.ender == FailingState
    ensures Step(b, EndFailState) == b.(state := Failed, ender := Aborting)
  {
    hide DoSend, WorkerStep, DoCleanup, Judge, Discard, Finish;
  }

  lemma EnderFails(b: Bulk, e: ErrorState)
    requires b.ender == Failing(e)
    ensures Step(Step(b, EndFailError), EndFailState) == b.(error := e, state := Failed, ender := Aborting)
  {
    hide Step;
    ErrorIsNoted(b, e);
    FailureIsNoted(Step(b, EndFailError));
  }

  /** A wait in vain: for a place in the queue, or for the worker. */
  lemma WaitFails(b: Bulk, a: Action)
    requires (a == EndPutTimeout && b.ender == Putting) || (a == EndTakeTimeout && b.ender == Waiting)
    ensures Step(b, a) == b.(ender := Failing(if a == EndPutTimeout then QueueError else TimeOut))
  {
    hide DoSend, WorkerStep, DoCleanup, Judge, Discard, Finish;
  }

  lemma AbortDrops(b: Bulk, closeOk: bool)
    requires Inv(b) && b.ender == Aborting
    ensures var (d, r) := EndStep(b, EndAbort(closeOk, true));
            r == Some(Result(Failed, b.error)) && d == AtRest(d) && d.file == []
  {
    hide Flow, Marker;
    EndKeeps(b, EndAbort(closeOk, true));
  }

  /** A queue that stays full: the call returns the failure, and the transfer is dropped. */
  lemma FullQueueFails(b: Bulk, closeOk: bool)
    requires Inv(b) && b.ender == Putting
    ensures var c := Run(b, [EndPutTimeout, EndFailError, EndFailState]);
            var (d, r) := EndStep(c, EndAbort(closeOk, true));
            r == Some(Result(Failed, QueueError)) && d == AtRest(d) && d.file == []
  {
    hide Run, Inv, AtRest, Step, EndStep;
    RunThree(b, EndPutTimeout, EndFailError, EndFailState);
    WaitFails(b, EndPutTimeout);
    EnderFails(Step(b, EndPutTimeout), QueueError);
    RunKeepsInv(b, [EndPutTimeout, EndFailError, EndFailState]);
    AbortDrops(Run(b, [EndPutTimeout, EndFailError, EndFailState]), closeOk);
  }

  /** A worker that does not answer in time. */
  lemma SilentWorkerFails(b: Bulk, closeOk: bool)
    requires Inv(b) && b.ender == Waiting
    ensures var c := Run(b, [EndTakeTimeout, EndFailError, EndFailState]);
            var (d, r) := EndStep(c, EndAbort(closeOk, true));
            r == Some(Result(Failed, TimeOut)) && d == AtRest(d) && d.file == []
  {
    hide Run, Inv, AtRest, Step, EndStep;
    RunThree(b, EndTakeTimeout, EndFailError, EndFailState);
    WaitFails(b, EndTakeTimeout);
    EnderFails(Step(b, EndTakeTimeout), TimeOut);
    RunKeepsInv(b, [EndTakeTimeout, EndFailError, EndFailState]);
    AbortDrops(Run(b, [EndTakeTimeout, EndFailError, EndFailState]), closeOk);
  }
}
