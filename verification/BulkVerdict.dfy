/** What a transfer leaves on the target: the whole file that was declared, or none of it. */
module BulkVerdict {
  import opened Bytes
  import opened Register16
  import opened BulkTransfer
  import Crc16

  /** The file that was declared, made of the frames accepted for it. */
  ghost predicate Whole(file: seq<Byte>, frames: seq<seq<Byte>>, size: nat, crc: Crc) {
    file == Concat(frames) && |file| == size && Crc16.Of(file) == crc
  }

  /** What the result of an ending call says about the file. A file that could be judged stays even if closing it or
      refreshing the catalog fails; any other failure deletes it, unless that fails too. */
  ghost predicate Leaves(r: Result, file: seq<Byte>, frames: seq<seq<Byte>>, size: nat, crc: Crc, deleteOk: bool) {
    match r.error
    case NoError => r.state == Success && Whole(file, frames, size, crc)
    case FileClose | RefreshCatalog => r.state == Failed && Whole(file, frames, size, crc)
    case FileDelete => r.state == Failed && !deleteOk
    case _ => r.state == Failed && deleteOk && file == []
  }

  /** A file dropped after a failure: it is gone, or the failure to delete it is what is reported. */
  lemma DroppedIsGone(b: Bulk, closeOk: bool, deleteOk: bool)
    requires b.state == Failed && (Mishap(b.error) || b.error in {ByteCountMismatch, CrcMismatch, FileSync})
    ensures var (c, r) := Finish(Discard(b, closeOk, deleteOk));
            && c.file == (if deleteOk then [] else b.file) && !c.fileOpen
            && r == Result(Failed, if deleteOk then b.error else FileDelete)
            && forall size: nat, crc: Crc :: Leaves(r, c.file, b.frames, size, crc, deleteOk)
  {
    hide Crc16.Of, Concat;
  }

  lemma RejectedLeaves(b: Bulk, e: ErrorState, closeOk: bool, deleteOk: bool)
    requires Mishap(e) || e in {ByteCountMismatch, CrcMismatch, FileSync}
    ensures var (c, r) := Reject(b, e, closeOk, deleteOk);
            && !c.fileOpen && (c.file == b.file || c.file == [])
            && Leaves(r, c.file, b.frames, b.fileSize, b.fileCrc, deleteOk)
  {
    hide Leaves, Finish, Discard, Mishap;
    DroppedIsGone(b.(state := Failed, error := e), closeOk, deleteOk);
  }

  /** A whole file with the results that keep it. */
  lemma KeptLeaves(b: Bulk, s: State, e: ErrorState, deleteOk: bool)
    requires b.file == Concat(b.frames) && |b.file| == b.fileSize && Crc16.Of(b.file) == b.fileCrc
    requires (s == Success && e == NoError) || (s == Failed && e in {FileClose, RefreshCatalog})
    ensures var (c, r) := Finish(b.(state := s, error := e, fileOpen := false));
            && !c.fileOpen && c.file == b.file && Leaves(r, c.file, b.frames, b.fileSize, b.fileCrc, deleteOk)
  {
    hide Crc16.Of, Concat;
  }

  lemma ErrorsAreMishaps(b: Bulk)
    requires Inv(b) && b.error != NoError
    ensures Mishap(b.error)
  {
  }

  lemma JudgedLeaves(b: Bulk, syncOk: bool, closeOk: bool, refreshOk: bool, deleteOk: bool)
    requires Inv(b) && b.ender == Judging
    ensures var (c, r) := Judge(b, syncOk, closeOk, refreshOk, deleteOk);
            && !c.fileOpen && (c.file == b.file || c.file == [])
            && Leaves(r, c.file, b.frames, b.fileSize, b.fileCrc, deleteOk)
  {
    hide Crc16.Of, Concat, Inv, Leaves, Reject, Finish, Mishap;
    if b.error != NoError {
      ErrorsAreMishaps(b);
      RejectedLeaves(b, b.error, closeOk, deleteOk);
    } else {
      Drained(b);
      RejectedLeaves(b, ByteCountMismatch, closeOk, deleteOk);
      RejectedLeaves(b, CrcMismatch, closeOk, deleteOk);
      RejectedLeaves(b, FileSync, closeOk, deleteOk);
      if b.received == b.fileSize && b.runningCrc == b.fileCrc {
        KeptLeaves(b, Failed, FileClose, deleteOk);
        KeptLeaves(b, Failed, RefreshCatalog, deleteOk);
        KeptLeaves(b, Success, NoError, deleteOk);
      }
    }
  }

  lemma AbortedLeaves(b: Bulk, closeOk: bool, deleteOk: bool)
    requires Inv(b) && b.ender == Aborting
    ensures var (c, r) := EndStep(b, EndAbort(closeOk, deleteOk));
            && !c.fileOpen && c.file == (if deleteOk then [] else b.file)
            && r.Some? && Leaves(r.value, c.file, b.frames, b.fileSize, b.fileCrc, deleteOk)
  {
    hide Crc16.Of, Concat, Flow, Marker, Discard, Leaves;
    var stopped := b.(worker := if b.threadFlag then Gone else b.worker, threadFlag := false);
    DroppedIsGone(stopped, closeOk, deleteOk);
  }

  /** The ending call decides. */
  predicate Decides(b: Bulk, a: Action) { (a.EndJudge? && b.ender == Judging) || (a.EndAbort? && b.ender == Aborting) }

  /** Whatever the interleaving was: when the ending call returns its verdict, the target is idle, the file is closed,
      and the result tells what became of it. */
  lemma VerdictMeans(b: Bulk, a: Action)
    requires Inv(b) && Decides(b, a)
    ensures var (c, r) := EndStep(b, a);
            && r.Some? && Leaves(r.value, c.file, b.frames, b.fileSize, b.fileCrc, a.deleteOk)
            && c.state == Idle && c.worker == Gone && c.queue == [] && !c.fileOpen && c.frames == b.frames
            && (c.file == b.file || c.file == [])
  {
    hide Crc16.Of, Concat, Flow, Marker, Discard, Leaves, Judge;
    EndKeeps(b, a);
    if a.EndJudge? {
      JudgedLeaves(b, a.syncOk, a.closeOk, a.refreshOk, a.deleteOk);
      JudgeKeeps(b, a.syncOk, a.closeOk, a.refreshOk, a.deleteOk);
    } else {
      AbortedLeaves(b, a.closeOk, a.deleteOk);
      DiscardTouches(b.(worker := if b.threadFlag then Gone else b.worker, threadFlag := false), a.closeOk, a.deleteOk);
    }
  }

  /** The cleanup ends a transfer that has an error, and deletes what was written of it. It does nothing to any
      other. */
  lemma CleanupMeans(b: Bulk, closeOk: bool, deleteOk: bool)
    requires Inv(b)
    ensures var c := Step(b, Cleanup(closeOk, deleteOk));
            if b.cleanup && b.ender == NotEnding && b.state != Idle && b.error != NoError then
              && c.state == Idle && c.error == NoError && c.worker == Gone && c.queue == [] && !c.fileOpen
              && c.file == (if deleteOk then [] else b.file)
            else c == b.(cleanup := b.cleanup && b.ender != NotEnding)
  {
    hide Flow, Marker;
  }

  /** The reason given for a file that nothing went wrong with until it was judged, told from what was accepted. */
  lemma VerdictReason(b: Bulk, syncOk: bool, closeOk: bool, refreshOk: bool)
    requires Inv(b) && b.ender == Judging && b.error == NoError
    ensures var sent := Concat(b.frames);
            Judge(b, syncOk, closeOk, refreshOk, true).1.error ==
              if |sent| != b.fileSize then ByteCountMismatch
              else if Crc16.Of(sent) != b.fileCrc then CrcMismatch
              else if !syncOk then FileSync
              else if !closeOk then FileClose
              else if !refreshOk then RefreshCatalog
              else NoError
  {
    hide Crc16.Of, Concat, Flow, Marker;
    Drained(b);
  }

  // ---- whole runs ----

  /** The last step of a run, as the verdict on a file that was found whole. */
  ghost predicate JudgedWhole(b: Bulk, a: Action, file: seq<Byte>) {
    Decides(b, a) && Whole(file, b.frames, b.fileSize, b.fileCrc)
  }

  /** Some step of the run was the verdict on this file. */
  ghost predicate FoundWhole(b: Bulk, actions: seq<Action>, file: seq<Byte>) {
    exists n :: 0 <= n < |actions| && JudgedWhole(Run(b, actions[..n]), actions[n], file)
  }

  lemma FoundLast(b: Bulk, actions: seq<Action>, file: seq<Byte>)
    requires actions != []
    requires JudgedWhole(Run(b, actions[..|actions| - 1]), actions[|actions| - 1], file)
    ensures FoundWhole(b, actions, file)
  {
    hide Run, JudgedWhole;
  }

  lemma FoundEarlier(b: Bulk, actions: seq<Action>, n: nat, file: seq<Byte>)
    requires n <= |actions| && FoundWhole(b, actions[..n], file)
    ensures FoundWhole(b, actions, file)
  {
    hide Run, JudgedWhole;
    var m :| 0 <= m < n && JudgedWhole(Run(b, actions[..n][..m]), actions[..n][m], file);
    assert actions[..n][..m] == actions[..m];
  }

  /** If this step deletes a file, the file system lets it. */
  predicate Deletes(a: Action) { (a.EndJudge? || a.EndAbort? || a.Cleanup?) ==> a.deleteOk }

  lemma GoneDoesNothing(b: Bulk, a: Action)
    requires b.worker == Gone
    ensures WorkerStep(b, a) == b
  {
  }

  lemma WorkerNotIdle(b: Bulk, a: Action)
    requires b.state != Idle
    ensures WorkerStep(b, a).state != Idle
  {
    hide Crc16.Update, CanProcess, Min;
  }

  lemma IdleIsGone(b: Bulk)
    requires Inv(b) && b.state == Idle
    ensures b.worker == Gone && b.ender == NotEnding
  {
    hide Flow, Marker;
  }

  /** Any other step of the ending call. */
  lemma EnderGoesOn(b: Bulk, a: Action)
    requires !Decides(b, a) && b.state != Idle
    ensures EndStep(b, a).0.state != Idle
  {
    hide Judge, Discard, Finish;
  }

  lemma IdleCannotEnd(b: Bulk, a: Action)
    requires b.state == Idle && b.ender == NotEnding
    ensures EndStep(b, a).0 == b
  {
    hide Judge, Discard, Finish;
  }

  lemma SendNotIdle(b: Bulk, f: Frame)
    ensures b.state == Idle ==> DoSend(b, f) == b
    ensures DoSend(b, f).state == b.state
  {
    hide Crc16.Of;
  }

  lemma VerdictLeavesWhole(b: Bulk, a: Action)
    requires Inv(b) && Decides(b, a) && a.deleteOk
    ensures var c := EndStep(b, a).0;
            c.state == Idle && (c.file == [] || JudgedWhole(b, a, c.file))
  {
    hide Inv, EndStep, Concat, Crc16.Of, Decides, Whole;
    VerdictMeans(b, a);
  }

  lemma EndIdleAfter(b: Bulk, a: Action)
    requires Inv(b) && Deletes(a) && EndStep(b, a).0.state == Idle
    ensures var c := EndStep(b, a).0;
            c.file == [] || JudgedWhole(b, a, c.file) || (b.state == Idle && c.file == b.file)
  {
    hide Inv, EndStep, JudgedWhole;
    if Decides(b, a) {
      VerdictLeavesWhole(b, a);
    } else if b.state == Idle {
      IdleIsGone(b);
      IdleCannotEnd(b, a);
    } else {
      EnderGoesOn(b, a);
    }
  }

  lemma WorkerIdleAfter(b: Bulk, a: Action)
    requires Inv(b) && WorkerStep(b, a).state == Idle
    ensures b.state == Idle && WorkerStep(b, a).file == b.file
  {
    hide Inv, WorkerStep;
    if b.state == Idle {
      IdleIsGone(b);
      GoneDoesNothing(b, a);
    } else {
      WorkerNotIdle(b, a);
    }
  }

  lemma CleanupIdleAfter(b: Bulk, closeOk: bool)
    requires Inv(b) && DoCleanup(b, closeOk, true).state == Idle
    ensures var c := DoCleanup(b, closeOk, true);
            c.file == [] || (b.state == Idle && c.file == b.file)
  {
    hide Inv, DoCleanup;
    CleanupMeans(b, closeOk, true);
  }

  /** A step that leaves the target idle leaves it without a file, with the one it was judged to have, or as it was. */
  lemma IdleAfter(b: Bulk, a: Action)
    requires Inv(b) && Deletes(a) && Step(b, a).state == Idle
    ensures var c := Step(b, a);
            c.file == [] || JudgedWhole(b, a, c.file) || (b.state == Idle && c.file == b.file)
  {
    hide Inv, WorkerStep, EndStep, DoCleanup, DoSend, JudgedWhole;
    match a {
      case Start(size, crc) =>
      case Send(f) =>
        SendNotIdle(b, f);
      case Cleanup(closeOk, deleteOk) =>
        CleanupIdleAfter(b, closeOk);
      case EndLock | EndFinalize | EndPut | EndPutTimeout | EndTake | EndTakeTimeout | EndFailError | EndFailState
         | EndAbort(_, _) | EndJudge(_, _, _, _) =>
        EndIdleAfter(b, a);
      case _ =>
        WorkerIdleAfter(b, a);
    }
  }

  /** Over every interleaving in which the file system deletes what it is told to: a file that an idle target holds was
      judged, and found to be the frames accepted for it, of the size and checksum declared. */
  lemma {:induction false} IdleHoldsWholeFiles(b: Bulk, actions: seq<Action>)
    requires Inv(b) && b.state == Idle && b.file == [] && forall i :: 0 <= i < |actions| ==> Deletes(actions[i])
    ensures var c := Run(b, actions);
            c.state == Idle && c.file != [] ==> FoundWhole(b, actions, c.file)
    decreases |actions|
  {
    hide Inv, Step, Deletes, JudgedWhole, FoundWhole;
    if actions == [] {
    } else {
      var n := |actions| - 1;
      var d := Run(b, actions[..n]);
      IdleHoldsWholeFiles(b, actions[..n]);
      RunKeepsInv(b, actions[..n]);
      var c := Step(d, actions[n]);
      if c.state == Idle && c.file != [] {
        IdleAfter(d, actions[n]);
        if JudgedWhole(d, actions[n], c.file) {
          FoundLast(b, actions, c.file);
        } else {
          FoundEarlier(b, actions, n, c.file);
        }
      }
    }
  }
}
