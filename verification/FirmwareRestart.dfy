/** How sessions end, what holds between them, and how the next one begins. */
module FirmwareRestart {
  import opened Bytes
  import opened Register16
  import opened FirmwareSession
  import opened FirmwareInvariant
  import opened FirmwareSafety
  import opened FirmwareImage
  import opened FirmwareIntegrity
  import opened FirmwareRecovery
  import Crc16

  /** Nothing received, nothing lost, and the checksum of no data. The accepted ids are those since the last erase. */
  function BlankRecord(accepted: set<nat>): Assembly {
    Assembly(0, 0xFFFF, 0, 0, 0, false, false, [], 0, false, accepted)
  }

  predicate Blank(s: Session) { s.fw == BlankRecord(s.fw.accepted) && s.tx == TxLink(TxIdle, 0, 0, None) }

  /** A session that has ended: no deadline, no open handle, nothing on the way to the host, and nothing left of its
      image but what is in flash. */
  predicate Ended(s: Session) {
    s.state == Error && !s.crashed && !s.armed && !s.handleOpen && Blank(s) && s.imageSize == 0 && s.imageCrc == 0
  }

  /** A session in progress can always be ended by its deadline, and a page that is out is remembered and was retried
      three times at most. An idle target has nothing left over from before. */
  predicate Orderly(s: Session) {
    match s.state
    case Idle => !s.armed && !s.handleOpen && Blank(s)
    case InProgress =>
      && s.armed && s.tx.retries <= MAX_RETRIES && s.tx.frameSeq < 256
      && if s.tx.state == TxIdle then s.tx.retries == 0 else s.tx.sent.Some?
    case Completed => false
    case Reboot => true
    case Error => Ended(s)
  }

  lemma AbortEnds(s: Session)
    requires !s.crashed
    ensures Ended(Abort(s)) && Orderly(Reinit(s))
    ensures Abort(s).area == s.area && Abort(s).fw.accepted == s.fw.accepted
  {
  }

  lemma AbortOrderly(s: Session)
    requires !s.crashed
    ensures Orderly(Abort(s))
  {
  }

  lemma StartKeepsOrder(s: Session, payload: seq<Byte>, io: Io)
    requires Orderly(s) && s.state == Idle && |payload| == REQUEST_LENGTH
    ensures Orderly(StartSession(s, payload, io).next)
  {
    hide RequestSize, ReadCrc, Wreck;
  }

  lemma StoreKeepsOrder(s: Session, id: nat, data: seq<Byte>, first: bool, io: Io)
    requires Orderly(s) && s.state == InProgress && !s.crashed && |data| == FRAME
    ensures Orderly(StorePacket(s, id, data, first, io).next)
  {
    hide WriteBlocks, BeginWrite, EndWrite, ClearSession;
    AbortEnds(s);
    var w := WriteBlocks(s.imageSize, s.handleOpen || first, BeginWrite(s.fw, id), s.area, id, data, 0, io);
    AbortEnds(s.(area := w.area));
  }

  lemma MismatchKeepsOrder(s: Session, id: nat)
    requires Orderly(s) && s.state == InProgress && !s.crashed
    ensures var o := CheckMismatch(s, id);
            Orderly(o.next) && (o.ok ==> o.next == s.(fw := o.next.fw))
  {
    hide Gap, IndexOf, ClearSession;
    AbortEnds(s);
  }

  lemma UpdateKeepsOrder(s: Session, payload: seq<Byte>, io: Io)
    requires Orderly(s) && s.state == InProgress && !s.crashed
    ensures Orderly(UpdateImage(s, payload, io).next)
  {
    hide StorePacket, CheckMismatch, Abort, Orderly;
    if |payload| == PACKET_LENGTH {
      var id := GetU16(payload[..2]);
      MismatchKeepsOrder(s, id);
      var t := if s.fw.nextId == id then s else CheckMismatch(s, id).next;
      if s.fw.nextId == id || CheckMismatch(s, id).ok {
        StoreKeepsOrder(t, id, payload[2..], s.fw.lastId == 0 && s.fw.nextId == 0, io);
      }
    }
    AbortOrderly(s);
  }

  lemma CompleteKeepsOrder(s: Session, io: Io)
    requires s.state == InProgress && !s.crashed
    ensures Orderly(Complete(s, io).next)
  {
    hide ClearSession;
    AbortEnds(s.(handleOpen := false, armed := false));
  }

  lemma CrashKeepsOrder(s: Session)
    requires Orderly(s) && s.state == InProgress
    ensures Orderly(s.(crashed := true))
  {
  }

  lemma ValidateKeepsOrder(s: Session, io: Io)
    requires Orderly(s) && s.state == InProgress && !s.crashed
    ensures Orderly(ValidateFromFlash(s, io).next)
  {
    hide Crc16.Update, Tail, TailReadable, Abort, Complete, Orderly;
    AbortOrderly(s);
    var tail := Tail(s.imageSize, s.area, FRAME * s.fw.firstLost);
    var t := s.(fw := s.fw.(runningCrc := Crc16.Update(s.fw.runningCrc, tail), lostActive := false));
    AbortOrderly(t);
    CompleteKeepsOrder(t, io);
    CrashKeepsOrder(s);
  }

  lemma DecideKeepsOrder(s: Session, io: Io)
    requires Orderly(s) && s.state == InProgress && !s.crashed
    ensures Orderly(Decide(s, io).next)
  {
    hide ValidateFromFlash, Complete, Abort, Orderly;
    AbortOrderly(s);
    ValidateKeepsOrder(s, io);
    CompleteKeepsOrder(s, io);
  }

  lemma EndKeepsOrder(s: Session, io: Io)
    requires Orderly(s) && s.state == InProgress && !s.crashed
    ensures Orderly(Finalize(s, io).next)
  {
    hide Decide, PendingIds, Gap, GapFits, PacketTotal, ClearSession;
    AbortEnds(s);
    DecideKeepsOrder(if s.fw.nextId < s.PacketCount() then s.(fw := RecordGap(s.fw, s.PacketCount())) else s, io);
  }

  lemma LinkKeepsOrder(s: Session, e: Event)
    requires Orderly(s) && !s.crashed && !e.Message?
    ensures Orderly(Step(s, e).next)
  {
    hide ClearSession;
    AbortEnds(s);
    AbortEnds(s.(tx := s.tx.(state := TxRetry)));
  }

  /** Every event of any kind keeps a session in order, however the drivers fail. */
  lemma StepKeepsOrder(s: Session, e: Event)
    requires Orderly(s)
    ensures Orderly(Step(s, e).next)
  {
    hide UpdateImage, Finalize, StartSession, PageOf, HandleHostAck, HandleTxTimeout, HandleStateTimeout;
    if !s.crashed {
      if !e.Message? {
        LinkKeepsOrder(s, e);
      } else if s.state == InProgress {
        AbortEnds(s);
        UpdateKeepsOrder(s, e.payload, e.io);
        EndKeepsOrder(s, e.io);
      } else if s.state == Idle && |e.payload| == REQUEST_LENGTH {
        StartKeepsOrder(s, e.payload, e.io);
      } else if s.state == Error {
        AbortEnds(s);
      }
    }
  }

  lemma {:induction false} RunKeepsOrder(s: Session, events: seq<Event>)
    requires Orderly(s)
    ensures Orderly(Run(s, events)) && |Run(s, events).area.flash| == |s.area.flash|
    decreases |events|
  {
    hide Orderly, Step;
    if events == [] {
    } else {
      var n := |events| - 1;
      RunKeepsOrder(s, events[..n]);
      StepKeepsOrder(Run(s, events[..n]), events[n]);
      StepKeepsSlot(Run(s, events[..n]), events[n]);
    }
  }

  // ---- the end of a session ----

  /** A stop ends the session, and leaves the flash alone. */
  lemma StopEnds(s: Session, payload: seq<Byte>, io: Io)
    requires s.state == InProgress && !s.crashed
    ensures var o := Step(s, Message(FwUpStop, payload, io));
            o.ok && Ended(o.next) && o.next.area == s.area
  {
    AbortEnds(s);
  }

  /** A deadline that passes ends whatever session is in progress, and nothing else. */
  lemma DeadlineEnds(s: Session)
    requires Orderly(s) && !s.crashed
    ensures var t := Step(s, StateTimeout).next;
            && t.area == s.area
            && (s.state == InProgress ==> Ended(t))
            && (s.state != InProgress ==> t == s.(armed := false))
  {
    AbortEnds(s);
  }

  /** Only a recovery gets a target out of its error. */
  predicate Recovers(e: Event) { e.Message? && e.cmd == RecoverFromError }

  lemma EndedIgnores(s: Session, e: Event)
    requires Ended(s) && !Recovers(e)
    ensures var o := Step(s, e);
            o.next == s && o.page == None && (e.Message? ==> !o.ok && o.error == InvalidCommand)
  {
  }

  /** A session that has ended stays as it is, its flash included, until it is recovered: every message is refused. */
  lemma {:induction false} EndedStays(s: Session, events: seq<Event>)
    requires Ended(s) && forall i :: 0 <= i < |events| ==> !Recovers(events[i])
    ensures Run(s, events) == s
    ensures forall n :: 0 <= n < |events| && events[n].Message? ==> !Step(Run(s, events[..n]), events[n]).ok
    decreases |events|
  {
    hide Ended, Recovers, Step;
    if events == [] {
    } else {
      var n := |events| - 1;
      EndedStays(s, events[..n]);
      EndedIgnores(s, events[n]);
      assert forall m :: 0 <= m < n ==> events[..n][..m] == events[..m];
    }
  }

  // ---- the next session ----

  /** A request to an idle target does not depend on what was programmed before. */
  lemma StartForgetsLog(s: Session, image: seq<Byte>)
    requires 0 < |image| <= MAX_IMAGE && |image| <= s.area.Available()
    ensures var t := s.(area := Area(s.area.flash, []));
            StartSession(s, UpdateRequest(image), GOOD) == StartSession(t, UpdateRequest(image), GOOD)
    ensures StartSession(s, UpdateRequest(image), GOOD).next.fw == BlankRecord({})
  {
    hide RequestSize, ReadCrc, UpdateRequest;
    RequestReadsBack(image);
  }

  lemma IdleServes(image: seq<Byte>, s: Session)
    requires Orderly(s) && s.state == Idle && !s.crashed
    requires 0 < |image| <= MAX_IMAGE && PacketTotal(|image|) <= MAX_PACKETS && Roomy(image, s.area)
    ensures var t := Step(s, Message(FwUpReq, UpdateRequest(image), GOOD)).next;
            Serving(image, t) && t.fw == BlankRecord({})
  {
    hide Serving, StartSession, UpdateRequest;
    var t := s.(area := Area(s.area.flash, []));
    RoomyFits(image, s.area);
    StartForgetsLog(s, image);
    StartsServing(image, t);
  }

  /** A deadline, a recovery and a request. */
  function Restart(image: seq<Byte>): seq<Event>
    requires 0 < |image| <= MAX_IMAGE
  {
    [StateTimeout, Message(RecoverFromError, [], GOOD), Message(FwUpReq, UpdateRequest(image), GOOD)]
  }

  lemma RunThree(s: Session, a: Event, b: Event, c: Event)
    ensures Run(s, [a, b, c]) == Step(Step(Step(s, a).next, b).next, c).next
  {
    hide Step, Run;
    assert [a, b, c][..2] == [a, b] && [a, b][..1] == [a] && [a][..0] == [];
    RunEnds(s, [a, b, c]);
    RunEnds(s, [a, b]);
    RunEnds(s, [a]);
    RunNothing(s);
  }

  lemma RecoveryIdles(s: Session)
    requires Orderly(s) && !s.crashed && s.state in {Idle, InProgress, Error}
    ensures var t := Step(Step(s, StateTimeout).next, Message(RecoverFromError, [], GOOD)).next;
            Orderly(t) && t.state == Idle && !t.crashed && t.area == s.area
  {
    DeadlineEnds(s);
  }

  lemma StuckStays(s: Session, e: Event)
    requires s.crashed || s.state == Reboot
    ensures var t := Step(s, e).next;
            (s.crashed ==> t.crashed) && (!s.crashed ==> t.state == Reboot)
  {
    hide StartSession, UpdateImage, Finalize;
  }

  lemma StuckNotServing(image: seq<Byte>, s: Session)
    requires s.crashed || s.state == Reboot
    ensures !Serving(image, s)
  {
  }

  /** However a run went: after a deadline, a recovery and a request the target serves any image that fits, from its
      first packet on, exactly unless the run completed an image or used a closed handle. */
  lemma AnyRunRestarts(image: seq<Byte>, s: Session, events: seq<Event>)
    requires Orderly(s)
    requires 0 < |image| <= MAX_IMAGE && PacketTotal(|image|) <= MAX_PACKETS && Roomy(image, s.area)
    ensures var t := Run(Run(s, events), Restart(image));
            && (Serving(image, t) <==> Run(s, events).state != Reboot && !Run(s, events).crashed)
            && (Serving(image, t) ==> t.fw == BlankRecord({}))
  {
    hide Step, Run, UpdateRequest, Serving, Roomy;
    RunKeepsOrder(s, events);
    var t := Run(s, events);
    RoomySame(image, s.area, t.area);
    var e := Restart(image);
    RunThree(t, e[0], e[1], e[2]);
    assert e == [e[0], e[1], e[2]];
    if t.state == Reboot || t.crashed {
      StuckStays(t, e[0]);
      StuckStays(Step(t, e[0]).next, e[1]);
      StuckStays(Step(Step(t, e[0]).next, e[1]).next, e[2]);
      StuckNotServing(image, Run(t, e));
    } else {
      RecoveryIdles(t);
      IdleServes(image, Step(Step(t, e[0]).next, e[1]).next);
    }
  }
}
