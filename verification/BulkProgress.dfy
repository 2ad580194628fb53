/** A transfer in which nothing fails: whatever the interleaving, it is judged a success, and it cannot get stuck. */
module BulkProgress {
  import opened Bytes
  import opened Register16
  import opened BulkTransfer
  import opened BulkHost
  import Crc16

  /** A timeout, a failed write or a failed file operation at the end. */
  predicate Faulty(a: Action) {
    match a
    case WorkerTimeout | EndPutTimeout | EndTakeTimeout => true
    case WorkerWrite(ok, _) => !ok
    case EndJudge(syncOk, closeOk, refreshOk, deleteOk) => !syncOk || !closeOk || !refreshOk || !deleteOk
    case _ => false
  }

  /** Steps up to the judgement in which nothing fails. */
  predicate Smooth(a: Action) { !Faulty(a) && !a.Start? && !a.EndJudge? }

  /** What a transfer is like while nothing has failed. */
  ghost predicate Clean(b: Bulk) {
    && Inv(b) && b.error == NoError
    && b.worker !in {Marking, Leaving(true)} && !b.worker.Erring?
    && (b.state == if b.ender in {NotEnding, Locked} then Receiving else Finalizing)
    && b.ender in {NotEnding, Locked, Putting, Waiting, Judging}
    && (b.done <==> b.ender == Waiting && b.worker == Gone)
    && (b.ender == Waiting && b.worker !in {Gone, Leaving(false)} ==> b.queue != [] && b.queue[|b.queue| - 1] == End)
  }

  lemma CleanStart(b: Bulk, data: seq<Byte>)
    requires Inv(b) && b.state == Idle && data != []
    ensures var c := Step(b, Start(|data|, Crc16.Of(data)));
            Clean(c) && c.ender == NotEnding && c.frames == [] && c.fileSize == |data| && c.fileCrc == Crc16.Of(data)
  {
    hide Crc16.Of, Crc16.Update, Flow, Marker;
    StartKeeps(b, |data|, Crc16.Of(data));
  }

  // ---- nothing fails by itself ----

  lemma CanGoOn(b: Bulk)
    requires Clean(b)
    ensures CanProcess(b)
  {
  }

  /** What a worker that has taken the end marker leaves behind, and what it finds before. */
  lemma CleanQueue(b: Bulk)
    requires Clean(b)
    ensures b.worker in {Gone, Leaving(false)} ==> b.queue == [] && b.ender in {Waiting, Judging}
    ensures b.queue != [] && b.queue[0] == End ==> b.ender == Waiting && b.queue[1..] == []
    ensures b.queue != [] && b.queue[0] != End && b.ender == Waiting ==> b.queue[1..] != []
    ensures b.ender == Judging ==> b.worker == Gone
  {
    hide Flow;
    assert forall i :: 0 <= i < |b.queue| - 1 ==> b.queue[..|b.queue| - 1][i] == b.queue[i];
  }

  lemma WorkerStaysClean(b: Bulk, a: Action)
    requires Clean(b) && Smooth(a)
    ensures Clean(WorkerStep(b, a))
  {
    hide Inv, Crc16.Update;
    WorkerKeeps(b, a);
    CleanQueue(b);
    CanGoOn(b);
  }

  lemma EndStaysClean(b: Bulk, a: Action)
    requires Clean(b) && Smooth(a)
    ensures Clean(EndStep(b, a).0)
  {
    hide Inv, Crc16.Update, Judge, Discard, Finish;
    EndKeeps(b, a);
    CleanQueue(b);
  }

  lemma SendStaysClean(b: Bulk, f: Frame)
    requires Clean(b)
    ensures Clean(DoSend(b, f))
  {
    hide Inv, Crc16.Update;
    SendKeeps(b, f);
  }

  lemma CleanupStaysClean(b: Bulk, closeOk: bool, deleteOk: bool)
    requires Clean(b)
    ensures Clean(DoCleanup(b, closeOk, deleteOk)) && DoCleanup(b, closeOk, deleteOk) ==
              b.(cleanup := DoCleanup(b, closeOk, deleteOk).cleanup)
  {
    hide Inv, Discard;
    CleanupKeeps(b, closeOk, deleteOk);
  }

  lemma StepStaysClean(b: Bulk, a: Action)
    requires Clean(b) && Smooth(a)
    ensures Clean(Step(b, a))
  {
    hide Clean, DoStart, DoSend, DoCleanup, EndStep, WorkerStep;
    match a {
      case Send(f) =>
        SendStaysClean(b, f);
      case Cleanup(closeOk, deleteOk) =>
        CleanupStaysClean(b, closeOk, deleteOk);
      case EndLock | EndFinalize | EndPut | EndPutTimeout | EndTake | EndTakeTimeout | EndFailError | EndFailState
         | EndAbort(_, _) | EndJudge(_, _, _, _) =>
        EndStaysClean(b, a);
      case _ =>
        WorkerStaysClean(b, a);
    }
  }

  /** No step of a run fails, starts another transfer or judges this one. */
  ghost predicate AllSmooth(actions: seq<Action>) { forall i :: 0 <= i < |actions| ==> Smooth(actions[i]) }

  lemma StepKeepsTerms(b: Bulk, a: Action)
    requires Clean(b) && Smooth(a)
    ensures Step(b, a).fileSize == b.fileSize && Step(b, a).fileCrc == b.fileCrc
  {
    hide Inv, Crc16.Update, Discard, Finish, Judge;
    if a.Cleanup? {
      CleanupStaysClean(b, a.closeOk, a.deleteOk);
    }
  }

  lemma {:induction false} RunStaysClean(b: Bulk, actions: seq<Action>)
    requires Clean(b) && AllSmooth(actions)
    ensures Clean(Run(b, actions)) && Run(b, actions).fileSize == b.fileSize && Run(b, actions).fileCrc == b.fileCrc
    decreases |actions|
  {
    hide Clean, Step, Smooth;
    if actions == [] {
    } else {
      var n := |actions| - 1;
      RunStaysClean(b, actions[..n]);
      StepStaysClean(Run(b, actions[..n]), actions[n]);
      StepKeepsTerms(Run(b, actions[..n]), actions[n]);
    }
  }

  // ---- the judgement ----

  const ALL_GOOD := EndJudge(true, true, true, true)

  /** A transfer in which nothing failed succeeds exactly if what was accepted has the declared size and checksum. */
  lemma JudgedClean(b: Bulk)
    requires Clean(b) && b.ender == Judging
    ensures EndStep(b, ALL_GOOD).1 == Some(Result(Success, NoError)) <==>
            |Concat(b.frames)| == b.fileSize && Crc16.Of(Concat(b.frames)) == b.fileCrc
    ensures EndStep(b, ALL_GOOD).1 == Some(Result(Success, NoError)) ==> EndStep(b, ALL_GOOD).0.file == Concat(b.frames)
  {
    hide Inv, Reject, Concat, Crc16.Of;
    Drained(b);
    JudgedGone(b);
    RejectKeeps(b, ByteCountMismatch, true, true);
    RejectKeeps(b, CrcMismatch, true, true);
  }

  /** A file sent in full while nothing fails, in whatever order worker, sender and ending call take their steps: the
      judgement is success, and the file is on the target. */
  lemma SmoothTransferSucceeds(b: Bulk, data: seq<Byte>, actions: seq<Action>)
    requires Inv(b) && b.state == Idle && data != [] && AllSmooth(actions)
    requires var s := Run(Step(b, Start(|data|, Crc16.Of(data))), actions);
             s.ender == Judging && s.frames == Chunks(data, ChunkCount(|data|))
    ensures var s := Run(Step(b, Start(|data|, Crc16.Of(data))), actions);
            EndStep(s, ALL_GOOD).1 == Some(Result(Success, NoError)) && EndStep(s, ALL_GOOD).0.file == data
  {
    hide Clean, Step, Run, EndStep, Crc16.Of;
    CleanStart(b, data);
    var c := Step(b, Start(|data|, Crc16.Of(data)));
    RunStaysClean(c, actions);
    ChunksConcat(data, ChunkCount(|data|));
    assert data[..Min(ChunkCount(|data|) * MAX_FRAME, |data|)] == data;
    JudgedClean(Run(c, actions));
  }

  // ---- progress ----

  function WorkerDue(w: Worker): nat {
    match w
    case Taken(_) => 4
    case Checked(_) => 3
    case Wrote(_) => 2
    case Summed(_) => 1
    case Leaving(_) => 2
    case Gone => 1
    case _ => 0
  }

  function EnderDue(e: Ender): nat {
    match e case NotEnding => 9 case Locked => 8 case Putting => 7 case Waiting => 1 case _ => 0
  }

  /** Steps still to be taken until the judgement. */
  function Due(b: Bulk): nat { WorkerDue(b.worker) + 5 * |b.queue| + EnderDue(b.ender) }

  lemma WorkerFalls(b: Bulk, a: Action)
    requires Clean(b) && Smooth(a)
    ensures WorkerStep(b, a) == b || Due(WorkerStep(b, a)) < Due(b)
    ensures WorkerStep(b, a).frames == b.frames
  {
    hide Inv, Crc16.Update;
    CleanQueue(b);
    CanGoOn(b);
  }

  lemma EndFalls(b: Bulk, a: Action)
    requires Clean(b) && Smooth(a)
    ensures EndStep(b, a).0 == b || Due(EndStep(b, a).0) < Due(b)
    ensures EndStep(b, a).0.frames == b.frames
  {
    hide Inv, Discard, Finish, Judge;
  }

  lemma NoStart(a: Action)
    requires a.Start?
    ensures !Smooth(a)
  {
  }

  /** Worker and ending steps either find nothing to do or bring the judgement nearer. */
  lemma StepsFall(b: Bulk, a: Action)
    requires Clean(b) && Smooth(a) && !a.Send?
    ensures Step(b, a) == b.(cleanup := Step(b, a).cleanup) || Due(Step(b, a)) < Due(b)
    ensures Step(b, a).frames == b.frames
  {
    hide Clean, Due, Smooth, DoStart, DoSend, DoCleanup, EndStep, WorkerStep;
    match a {
      case Cleanup(closeOk, deleteOk) =>
        CleanupStaysClean(b, closeOk, deleteOk);
      case EndLock | EndFinalize | EndPut | EndPutTimeout | EndTake | EndTakeTimeout | EndFailError | EndFailState
         | EndAbort(_, _) | EndJudge(_, _, _, _) =>
        EndFalls(b, a);
      case Start(_, _) =>
        NoStart(a);
      case _ =>
        WorkerFalls(b, a);
    }
  }

  /** The worker's next step. */
  function WorkerNext(b: Bulk): Action {
    match b.worker
    case Taken(_) => WorkerCheck
    case Checked(_) => WorkerWrite(true, 0)
    case Wrote(_) => WorkerSum
    case Summed(_) => WorkerCount
    case Leaving(_) => WorkerSignal
    case _ => WorkerFetch
  }

  /** The worker waits for a message, or has left. */
  predicate Starved(b: Bulk) { b.worker == Gone || (b.worker == Fetching && b.queue == []) }

  /** A step that brings the judgement nearer, once the sender is done. */
  function Next(b: Bulk): Action {
    if !Starved(b) then WorkerNext(b)
    else
      match b.ender
      case NotEnding => EndLock
      case Locked => EndFinalize
      case Putting => EndPut
      case _ => EndTake
  }

  /** Where the four sections of a frame lead: nothing else that counts is touched. */
  lemma FrameEffects(b: Bulk, d: seq<Byte>)
    requires CanProcess(b)
    ensures var c := Checking(b, d); c.worker == Checked(d) && c.queue == b.queue && c.ender == b.ender
    ensures var c := Writing(b, d, true, 0); c.worker == Wrote(d) && c.queue == b.queue && c.ender == b.ender
    ensures var c := Summing(b, d); c.worker == Summed(d) && c.queue == b.queue && c.ender == b.ender
    ensures var c := Counting(b, d); c.worker == Fetching && c.queue == b.queue && c.ender == b.ender
  {
    hide Crc16.Update;
  }

  lemma FrameMoves(b: Bulk)
    requires CanProcess(b) && (b.worker.Taken? || b.worker.Checked? || b.worker.Wrote? || b.worker.Summed?)
    ensures var c := WorkerStep(b, WorkerNext(b));
            Due(c) < Due(b) && c.ender == b.ender
  {
    hide Checking, Writing, Summing, Counting, CanProcess;
    FrameEffects(b, b.worker.held);
  }

  lemma LastMoves(b: Bulk)
    requires b.worker.Leaving?
    ensures var c := WorkerStep(b, WorkerNext(b));
            Due(c) < Due(b) && c.ender == b.ender
  {
  }

  lemma FetchMoves(b: Bulk)
    requires b.worker == Fetching && b.queue != []
    ensures var c := WorkerStep(b, WorkerNext(b));
            Due(c) < Due(b) && c.ender == b.ender
  {
  }

  lemma WorkerIsSmooth(b: Bulk)
    ensures Smooth(WorkerNext(b)) && !WorkerNext(b).Send?
    ensures Step(b, WorkerNext(b)) == WorkerStep(b, WorkerNext(b))
  {
    hide WorkerStep;
  }

  lemma WorkerMoves(b: Bulk)
    requires Clean(b) && !Starved(b)
    ensures Smooth(WorkerNext(b)) && !WorkerNext(b).Send?
    ensures Due(WorkerStep(b, WorkerNext(b))) < Due(b) && WorkerStep(b, WorkerNext(b)).ender == b.ender
    ensures Step(b, WorkerNext(b)) == WorkerStep(b, WorkerNext(b))
  {
    hide Inv, WorkerStep, Due, Step, WorkerNext, Smooth;
    CanGoOn(b);
    WorkerIsSmooth(b);
    if b.worker == Fetching {
      FetchMoves(b);
    } else if b.worker.Leaving? {
      LastMoves(b);
    } else {
      FrameMoves(b);
    }
  }

  lemma EnderMoves(b: Bulk)
    requires Clean(b) && Starved(b) && b.ender != Judging
    ensures Smooth(Next(b)) && Due(EndStep(b, Next(b)).0) < Due(b)
    ensures Step(b, Next(b)) == EndStep(b, Next(b)).0 && !Next(b).Send?
  {
    hide Inv, Discard, Finish, Judge;
    CleanQueue(b);
  }

  /** Short of the judgement there is always a step to take: no schedule gets stuck. */
  lemma NeverStuck(b: Bulk)
    requires Clean(b) && b.ender != Judging
    ensures Smooth(Next(b)) && !Next(b).Send? && Due(Step(b, Next(b))) < Due(b)
    ensures !Starved(b) ==> Step(b, Next(b)).ender == b.ender
  {
    hide Clean, Due, Smooth, Step, Starved, WorkerNext;
    if Starved(b) {
      EnderMoves(b);
    } else {
      WorkerMoves(b);
    }
  }

  lemma RunFirst(b: Bulk, a: Action, rest: seq<Action>)
    ensures Run(b, [a] + rest) == Run(Step(b, a), rest)
  {
    hide Step, Run;
    RunAppend(b, [a], rest);
    RunOne(b, [], a);
    assert [] + [a] == [a];
  }

  /** From anywhere in a smooth transfer the judgement can be reached, within as many steps as are due. */
  lemma {:induction false} ReachJudgement(b: Bulk) returns (actions: seq<Action>)
    requires Clean(b)
    ensures AllSmooth(actions) && |actions| <= Due(b)
    ensures Run(b, actions).ender == Judging && Run(b, actions).frames == b.frames
    decreases Due(b)
  {
    hide Clean, Step, Due, Smooth, Next;
    if b.ender == Judging {
      actions := [];
    } else {
      NeverStuck(b);
      StepsFall(b, Next(b));
      StepStaysClean(b, Next(b));
      var rest := ReachJudgement(Step(b, Next(b)));
      actions := [Next(b)] + rest;
      RunFirst(b, Next(b), rest);
    }
  }

  lemma WorkerStays(b: Bulk)
    requires Clean(b) && b.ender == NotEnding && b.queue != []
    ensures !Starved(b)
  {
    CleanQueue(b);
  }

  /** The worker empties the queue while the sender pauses. */
  lemma {:induction false} ReachEmpty(b: Bulk) returns (actions: seq<Action>)
    requires Clean(b) && b.ender == NotEnding
    ensures AllSmooth(actions)
    ensures Run(b, actions).queue == [] && Run(b, actions).ender == NotEnding && Run(b, actions).frames == b.frames
    decreases Due(b)
  {
    hide Clean, Step, Due, Smooth;
    if b.queue == [] {
      actions := [];
    } else {
      WorkerStays(b);
      NeverStuck(b);
      StepsFall(b, Next(b));
      StepStaysClean(b, Next(b));
      var rest := ReachEmpty(Step(b, Next(b)));
      actions := [Next(b)] + rest;
      RunFirst(b, Next(b), rest);
    }
  }

  lemma NothingYet(b: Bulk, data: seq<Byte>)
    ensures Run(b, []) == b && Chunks(data, 0) == []
  {
  }

  lemma SendSmooth(a: Action)
    requires a.Send?
    ensures Smooth(a)
  {
  }

  lemma ChunkTaken(b: Bulk, data: seq<Byte>, k: nat)
    requires Clean(b) && b.ender == NotEnding && b.queue == [] && k < ChunkCount(|data|)
    requires b.frames == Chunks(data, k) && b.fileSize == |data|
    ensures var c := Step(b, Send(Frame(k, ChunkAt(data, k), Crc16.Of(ChunkAt(data, k)))));
            c.ender == NotEnding && c.frames == Chunks(data, k + 1)
  {
    hide Crc16.Of, Crc16.Update, Marker;
    ChunksConcat(data, k);
    HealthyFlows(b);
  }

  /** The first `k` chunks of any file can be got across, however full the queue is in between. */
  lemma {:induction false} ReachChunks(b: Bulk, data: seq<Byte>, k: nat) returns (actions: seq<Action>)
    requires Inv(b) && b.state == Idle && data != [] && k <= ChunkCount(|data|)
    ensures AllSmooth(actions)
    ensures var s := Run(Step(b, Start(|data|, Crc16.Of(data))), actions);
            s.ender == NotEnding && s.frames == Chunks(data, k)
  {
    hide Clean, Step, Smooth, Run, Chunks, ChunkAt, Crc16.Of;
    var c := Step(b, Start(|data|, Crc16.Of(data)));
    CleanStart(b, data);
    if k == 0 {
      actions := [];
      NothingYet(c, data);
    } else {
      var before := ReachChunks(b, data, k - 1);
      RunStaysClean(c, before);
      var s := Run(c, before);
      var drain := ReachEmpty(s);
      RunStaysClean(s, drain);
      var t := Run(s, drain);
      var chunk := ChunkAt(data, k - 1);
      var send := Send(Frame(k - 1, chunk, Crc16.Of(chunk)));
      RunStaysClean(c, before + drain);
      RunAppend(c, before, drain);
      ChunkTaken(t, data, k - 1);
      actions := before + drain + [send];
      RunOne(c, before + drain, send);
      SendSmooth(send);
    }
  }

  /** So any file can be transferred: there is a schedule, and it ends in success. */
  lemma AnyFileGetsThrough(b: Bulk, data: seq<Byte>) returns (actions: seq<Action>)
    requires Inv(b) && b.state == Idle && data != []
    ensures AllSmooth(actions)
    ensures var s := Run(Step(b, Start(|data|, Crc16.Of(data))), actions);
            EndStep(s, ALL_GOOD).1 == Some(Result(Success, NoError)) && EndStep(s, ALL_GOOD).0.file == data
  {
    hide Clean, Step, Run, EndStep, Crc16.Of, Smooth;
    var c := Step(b, Start(|data|, Crc16.Of(data)));
    CleanStart(b, data);
    var sent := ReachChunks(b, data, ChunkCount(|data|));
    RunStaysClean(c, sent);
    var rest := ReachJudgement(Run(c, sent));
    RunAppend(c, sent, rest);
    actions := sent + rest;
    SmoothTransferSucceeds(b, data, actions);
  }
}
