/** What the target answers to a message, and why. */
module FirmwareAnswers {
  import opened Bytes
  import opened Register16
  import opened FirmwareSession
  import opened FirmwareInvariant
  import opened FirmwareSafety
  import opened FirmwareRestart
  import Crc16

  // ---- a request ----

  /** An update request is accepted exactly if the image fits and the drivers do their part; the slot is then erased and
      the record blank. It is refused with the first reason there is, and only a failed erase touches the flash. */
  lemma RequestAnswer(s: Session, payload: seq<Byte>, io: Io)
    requires s.state == Idle && !s.crashed && |payload| == REQUEST_LENGTH
    ensures var size, room := RequestSize(payload), s.area.Available();
            var o := Step(s, Message(FwUpReq, payload, io));
            && (o.ok <==> 0 < size <= room && io.openOk && io.eraseOk)
            && o.error == (if size == 0 then InvalidImageSize
                           else if room <= 0 then FlashBoundsExceeded
                           else if size > room then ImageTooLarge
                           else if !io.openOk then FlashAreaOpenFail
                           else if !io.eraseOk then FlashAreaEraseFail
                           else NoError)
            && (o.ok ==>
                  && o.next.state == InProgress && o.next.imageSize == size
                  && o.next.imageCrc == ReadCrc(payload[8..10])
                  && o.next.fw == BlankRecord({}) && !o.next.handleOpen && o.next.armed
                  && |o.next.area.flash| == |s.area.flash|
                  && forall i :: 0 <= i < |s.area.flash| ==> o.next.area.flash[i] == 0xFF)
            && (!o.ok ==> o.next.state == Idle && (o.error != FlashAreaEraseFail ==> o.next.area == s.area))
            && (o.error == FlashAreaEraseFail && |io.wreck| == |s.area.flash| ==> o.next.area.flash == io.wreck)
  {
    hide RequestSize, ReadCrc;
  }

  // ---- a data packet ----

  /** Block `j` of packet `id` starts behind the slot, or carries data and does not end inside it. */
  predicate OutOfSlot(size: nat, area: Area, id: nat, j: nat) {
    var off := id * FRAME + j * BLOCK;
    off > area.Available() || (off < size && off + BLOCK > area.Available())
  }

  /** Why a packet could not be written: a block that is out of the slot, or one that the driver failed to program; the
      flash is then what the driver left. */
  ghost predicate Faulty(size: nat, area: Area, id: nat, k: nat, io: Io, w: Blocks) {
    exists j :: k <= j < 3 &&
      if w.verdict == Failed(FlashBoundsExceeded) then OutOfSlot(size, area, id, j)
      else
        && w.verdict == Failed(FlashAreaWriteFail) && io.failAt == j && id * FRAME + j * BLOCK < size
        && !OutOfSlot(size, area, id, j) && (|io.wreck| == |area.flash| ==> w.area.flash == io.wreck)
  }

  lemma FaultHere(size: nat, area: Area, id: nat, k: nat, io: Io, w: Blocks)
    requires k < 3
    requires if w.verdict == Failed(FlashBoundsExceeded) then OutOfSlot(size, area, id, k)
             else
               && w.verdict == Failed(FlashAreaWriteFail) && io.failAt == k && id * FRAME + k * BLOCK < size
               && !OutOfSlot(size, area, id, k) && (|io.wreck| == |area.flash| ==> w.area.flash == io.wreck)
    ensures Faulty(size, area, id, k, io, w)
  {
  }

  lemma FaultLater(size: nat, area: Area, later: Area, id: nat, k: nat, io: Io, w: Blocks)
    requires |area.flash| == |later.flash| && k < 3 && Faulty(size, later, id, k + 1, io, w)
    ensures Faulty(size, area, id, k, io, w)
  {
    forall j: nat
      ensures OutOfSlot(size, area, id, j) == OutOfSlot(size, later, id, j)
    {
    }
  }

  lemma {:induction false} BlocksFail(
    size: nat, fw: Assembly, area: Area, id: nat, data: seq<Byte>, k: nat, io: Io)
    requires |data| == FRAME && k <= 3
    ensures var w := WriteBlocks(size, true, fw, area, id, data, k, io);
            w.verdict == Stored || Faulty(size, area, id, k, io, w)
    decreases 3 - k
  {
    hide Count, Faulty;
    var off := id * FRAME + k * BLOCK;
    var w := WriteBlocks(size, true, fw, area, id, data, k, io);
    if k == 3 {
    } else if OutOfSlot(size, area, id, k) || (off < size && io.failAt == k) {
      FaultHere(size, area, id, k, io, w);
    } else if off < size {
      var chunk := Chunk(size, id, data, k);
      var fw', area' := Count(fw, chunk), ProgramBlock(area, off, chunk);
      if fw'.received < size {
        BlocksFail(size, fw', area', id, data, k + 1, io);
        if w.verdict != Stored {
          FaultLater(size, area, area', id, k, io, w);
        }
      }
    }
  }

  /** The session a packet leaves when it could not be written. */
  ghost predicate FaultEnds(s: Session, id: nat, io: Io, o: Outcome) {
    && !o.ok && Ended(o.next)
    && exists w: Blocks :: Faulty(s.imageSize, s.area, id, 0, io, w) && w.verdict == Failed(o.error) &&
                           w.area == o.next.area
  }

  lemma MarkKeepsRest(fw: Assembly, id: nat)
    ensures var m := MarkRecovered(fw, id);
            m.lastId == fw.lastId && m.accepted == fw.accepted && m.writing == fw.writing
  {
  }

  lemma FaultyFails(size: nat, area: Area, id: nat, k: nat, io: Io, w: Blocks)
    ensures Faulty(size, area, id, k, io, w) ==>
              w.verdict == Failed(FlashBoundsExceeded) || w.verdict == Failed(FlashAreaWriteFail)
  {
  }

  /** The blocks change nothing in the record but the count and the checksum. */
  lemma {:induction false} BlocksKeepRecord(
    size: nat, fw: Assembly, area: Area, id: nat, data: seq<Byte>, k: nat, io: Io)
    requires |data| == FRAME && k <= 3
    ensures var w := WriteBlocks(size, true, fw, area, id, data, k, io);
            w.fw == fw.(received := w.fw.received, runningCrc := w.fw.runningCrc)
    decreases 3 - k
  {
    hide Crc16.Update, ProgramBlock, Wreck;
    var off := id * FRAME + k * BLOCK;
    if k < 3 && off < size && off + BLOCK <= area.Available() && io.failAt != k {
      var chunk := Chunk(size, id, data, k);
      BlocksKeepRecord(size, Count(fw, chunk), ProgramBlock(area, off, chunk), id, data, k + 1, io);
    }
  }

  lemma StoreAnswer(s: Session, id: nat, data: seq<Byte>, first: bool, io: Io)
    requires s.state == InProgress && !s.crashed && |data| == FRAME && (s.handleOpen || first)
    ensures var o := StorePacket(s, id, data, first, io);
            if first && !io.openOk then !o.ok && o.error == FlashAreaOpenFail && Ended(o.next) && o.next.area == s.area
            else if o.ok then
              && o.error == NoError && o.next.state == InProgress && !o.next.crashed
              && o.next.handleOpen && o.next.armed
              && o.next.fw.lastId == id && !o.next.fw.writing && o.next.fw.accepted == s.fw.accepted + {id}
            else FaultEnds(s, id, io, o)
  {
    hide WriteBlocks, MarkRecovered, Faulty, Abort, Ended;
    var w := WriteBlocks(s.imageSize, true, BeginWrite(s.fw, id), s.area, id, data, 0, io);
    BlocksFail(s.imageSize, BeginWrite(s.fw, id), s.area, id, data, 0, io);
    BlocksKeepRecord(s.imageSize, BeginWrite(s.fw, id), s.area, id, data, 0, io);
    FaultyFails(s.imageSize, s.area, id, 0, io, w);
    MarkKeepsRest(w.fw.(writing := false, accepted := w.fw.accepted + {id}), id);
    AbortEnds(s);
    AbortEnds(s.(area := w.area));
  }

  lemma FaultSame(s: Session, t: Session, id: nat, io: Io, o: Outcome)
    requires t.imageSize == s.imageSize && t.area == s.area
    ensures FaultEnds(t, id, io, o) == FaultEnds(s, id, io, o)
  {
    hide Faulty, Ended;
  }

  lemma MismatchAnswer(s: Session, id: nat)
    requires s.fw.nextId != id && s.state == InProgress && !s.crashed
    ensures var o := CheckMismatch(s, id);
            && (o.ok <==> Accepts(s.fw, id))
            && (o.ok ==> o.next == s.(fw := o.next.fw) && o.next.fw.accepted == s.fw.accepted)
            && (!o.ok ==> o.error == InvalidPacketId && o.next == if id > s.fw.nextId then Abort(s) else s)
  {
    hide Gap, Abort;
  }

  /** A data packet: refused for its length or its id, without effect unless it skips more ids than the table has room
      for; ended by a driver that fails, or by a block out of the slot; otherwise stored. */
  lemma PacketAnswer(s: Session, payload: seq<Byte>, io: Io)
    requires Inv(s) && HandleReady(s) && s.state == InProgress && !s.crashed
    ensures var o := Step(s, Message(FwUpMsg, payload, io));
            if |payload| != PACKET_LENGTH then o == Refuse(s, InvalidPayloadLength)
            else
              var id := GetU16(payload[..2]);
              if !Accepts(s.fw, id) then
                && !o.ok && o.error == InvalidPacketId
                && if id > s.fw.nextId then Ended(o.next) && o.next.area == s.area else o.next == s
              else if s.fw.nextId == 0 && !io.openOk then
                !o.ok && o.error == FlashAreaOpenFail && Ended(o.next) && o.next.area == s.area
              else if o.ok then
                && o.error == NoError && o.next.state == InProgress && o.next.handleOpen && o.next.armed
                && o.next.fw.lastId == id && o.next.fw.accepted == s.fw.accepted + {id}
              else FaultEnds(s, id, io, o)
  {
    hide StorePacket, CheckMismatch, Inv, FaultEnds, Ended, Abort;
    LiveStart(s);
    AbortEnds(s);
    if |payload| == PACKET_LENGTH {
      var id := GetU16(payload[..2]);
      var first := s.fw.lastId == 0 && s.fw.nextId == 0;
      if s.fw.nextId == id {
        StoreAnswer(s, id, payload[2..], first, io);
      } else {
        MismatchAnswer(s, id);
        var o := CheckMismatch(s, id);
        if o.ok {
          StoreAnswer(o.next, id, payload[2..], first, io);
          FaultSame(s, o.next, id, io, StorePacket(o.next, id, payload[2..], first, io));
        }
      }
    }
  }

  // ---- the end of the image ----

  /** Whether the driver can read what the checksum does not cover yet: it may fail twice, but not three times. */
  predicate Readable(size: nat, fw: Assembly, io: Io) {
    fw.lostActive ==> FRAME * fw.firstLost == size || (FRAME * fw.firstLost < size && io.readFails < 3)
  }

  /** The checksum of the image region in flash. */
  function FlashCrc(size: nat, area: Area): Crc
    requires size <= area.Available()
  {
    Crc16.Of(area.flash[WRITE_OFFSET..WRITE_OFFSET + size])
  }

  /** The verdict on a complete image: it restarts into it exactly if flash can be read and has the checksum requested,
      and the upgrade can be requested. */
  ghost predicate Verdicts(s: Session, fw: Assembly, io: Io, o: Outcome)
    requires s.imageSize <= s.area.Available()
  {
    && o.error == (if !Readable(s.imageSize, fw, io) then FlashAreaReadFail
                   else if FlashCrc(s.imageSize, s.area) != s.imageCrc then CrcMismatch
                   else if io.upgradeFails >= MAX_RETRIES then UpgradeRequestFail
                   else NoError)
    && (o.ok <==> o.error == NoError) && o.next.area == s.area && !o.next.crashed
    && if o.ok then o.next.state == Reboot && o.next.armed && !o.next.handleOpen else Ended(o.next)
  }

  lemma CompleteAnswer(s: Session, io: Io)
    requires s.state == InProgress && !s.crashed
    ensures var o := Complete(s, io);
            && o.error == (if io.upgradeFails >= MAX_RETRIES then UpgradeRequestFail else NoError)
            && (o.ok <==> o.error == NoError) && o.next.area == s.area && !o.next.crashed
            && if o.ok then o.next.state == Reboot && o.next.armed && !o.next.handleOpen else Ended(o.next)
  {
    hide Abort, Ended;
    AbortEnds(s.(handleOpen := false, armed := false));
  }

  lemma TailIsReadable(size: nat, fw: Assembly, area: Area, io: Io)
    requires size <= area.Available()
    ensures Readable(size, fw, io) <==> !fw.lostActive || TailReadable(size, area, FRAME * fw.firstLost, io)
    ensures TailReadable(size, area, FRAME * fw.firstLost, io) ==> FRAME * fw.firstLost <= size
  {
  }

  lemma DecideAnswer(s: Session, io: Io)
    requires Live(s.imageSize, s.fw, s.area) && s.state == InProgress && !s.crashed && s.handleOpen
    requires PendingIds(s.fw.lost) == [] && s.fw.nextId * FRAME >= s.imageSize
    ensures Verdicts(s, s.fw, io, Decide(s, io))
  {
    hide Crc16.Update, ProgramLog, BlankOutside, LogAccepted, Partition, Abort, Complete, Ended, Tail, PendingIds,
      Readable, TailReadable;
    NothingMissing(s.imageSize, s.fw);
    TailIsReadable(s.imageSize, s.fw, s.area, io);
    AbortEnds(s);
    CompleteAnswer(s, io);
    if s.fw.lostActive {
      var from := FRAME * s.fw.firstLost;
      if TailReadable(s.imageSize, s.area, from, io) {
        Splice(s.imageSize, s.fw, s.area);
        var crc := Crc16.Update(s.fw.runningCrc, Tail(s.imageSize, s.area, from));
        var t := s.(fw := s.fw.(runningCrc := crc, lostActive := false));
        AbortEnds(t);
        CompleteAnswer(t, io);
      }
    } else {
      assert ChecksumLength(s.imageSize, s.fw) == s.imageSize;
    }
  }

  lemma NotLostNotPending(fw: Assembly)
    ensures fw.lost == [] ==> PendingIds(fw.lost) == []
  {
  }

  lemma VerdictSame(s: Session, t: Session, fw: Assembly, io: Io, o: Outcome)
    requires s.imageSize == t.imageSize <= s.area.Available() && s.area == t.area && s.imageCrc == t.imageCrc
    ensures Verdicts(s, fw, io, o) == Verdicts(t, fw, io, o)
  {
    hide Ended, FlashCrc;
  }

  /** FWUpEnd: refused for good if there are too many packets, or more missing than the table has room for; refused for
      now if any is missing; otherwise flash decides. */
  lemma EndAnswer(s: Session, payload: seq<Byte>, io: Io)
    requires Inv(s) && HandleReady(s) && s.state == InProgress && !s.crashed && s.imageSize <= s.area.Available()
    requires s.fw.nextId > 0
    ensures var o := Step(s, Message(FwUpEnd, payload, io));
            if s.PacketCount() > MAX_PACKETS then !o.ok && o.error == ImageTooLarge && Ended(o.next)
            else if s.fw.nextId < s.PacketCount() && !GapFits(s.fw, s.PacketCount()) then
              !o.ok && o.error == InvalidPacketId && Ended(o.next)
            else if PendingIds(AtEnd(s).lost) != [] then
              && !o.ok && o.error == MissingPacketsPending
              && o.next == s.(fw := AtEnd(s), tx := TxLink(TxIdle, 0, 0, None), armed := true)
            else Verdicts(s, AtEnd(s), io, o)
  {
    hide Live, Decide, RecordGap, Verdicts, PendingIds, Ended, Abort, ImageValidated, ProgramLog;
    AbortEnds(s);
    if s.PacketCount() <= MAX_PACKETS && (s.fw.nextId < s.PacketCount() ==> GapFits(s.fw, s.PacketCount())) {
      AtEndKeeps(s);
      var t := s.(fw := AtEnd(s));
      NotLostNotPending(t.fw);
      if PendingIds(t.fw.lost) == [] {
        DecideAnswer(t, io);
        VerdictSame(s, t, t.fw, io, Decide(t, io));
      }
    }
  }

  // ---- other commands ----

  /** Every other message is refused without effect, but in a session that is about to restart. */
  lemma OtherAnswer(s: Session, cmd: Command, payload: seq<Byte>, io: Io)
    requires !s.crashed
    ensures var o := Step(s, Message(cmd, payload, io));
            match s.state
            case Idle =>
              && (|payload| != REQUEST_LENGTH ==> o == Refuse(s, InvalidPayloadLength))
              && (|payload| == REQUEST_LENGTH && cmd !in {FwUpReq, NoCommand} ==> o == Refuse(s, InvalidCommand))
            case InProgress =>
              cmd in {FwUpReq, FwUpPause, RecoverFromError, NoCommand} ==> o == Refuse(s, InvalidCommand)
            case Completed => o == Accept(s)
            case Reboot => o == Accept(s.(armed := false))
            case Error =>
              if cmd == RecoverFromError then o.ok && o.next.state == Idle else o == Refuse(s, InvalidCommand)
  {
    hide StartSession, UpdateImage, Finalize, PageOf;
  }
}
