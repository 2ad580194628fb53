/** End to end: whatever happens to the host's packets on the way, an image the target completes is the image sent. */
module FirmwareIntegrity {
  import opened Bytes
  import opened Register16
  import opened FirmwareSession
  import opened FirmwareInvariant
  import opened FirmwareSafety
  import opened FirmwareImage
  import Crc16

  /** Update requests and data packets are those of `image`; any packet of it may come at any time, or never.
      All other messages, acknowledgements and timeouts are free. */
  ghost predicate FromHost(image: seq<Byte>, e: Event)
    requires 0 < |image| <= MAX_IMAGE
  {
    e.Message? ==>
      && (e.cmd == FwUpReq || e.cmd == NoCommand ==> e.payload == UpdateRequest(image))
      && (e.cmd == FwUpMsg ==>
            exists id: nat :: id < PacketTotal(|image|) && id < 0x1_0000 && e.payload == PacketPayload(image, id))
  }

  /** The bytes of accepted packets are in their place. */
  ghost predicate Content(image: seq<Byte>, flash: seq<Byte>, accepted: set<nat>) {
    && WRITE_OFFSET + |image| <= |flash|
    && forall j :: 0 <= j < |image| && j / FRAME in accepted ==> flash[WRITE_OFFSET + j] == image[j]
  }

  /** The image region of the slot. */
  ghost predicate InFlash(image: seq<Byte>, flash: seq<Byte>) {
    WRITE_OFFSET + |image| <= |flash| && flash[WRITE_OFFSET..WRITE_OFFSET + |image|] == image
  }

  ghost predicate Faithful(image: seq<Byte>, s: Session) {
    && Inv(s)
    && (s.state == InProgress && !s.crashed ==> s.imageSize == |image| && Content(image, s.area.flash, s.fw.accepted))
    && (s.state == Reboot ==> InFlash(image, s.area.flash))
  }

  lemma WrittenContent(image: seq<Byte>, before: seq<Byte>, after: seq<Byte>, accepted: set<nat>, id: nat)
    requires id < PacketTotal(|image|) && Content(image, before, accepted)
    requires Written(before, after, id, PacketData(image, id), 0, ValidLength(|image|, id))
    ensures Content(image, after, accepted + {id})
  {
    forall j | 0 <= j < |image| && j / FRAME in accepted + {id}
      ensures after[WRITE_OFFSET + j] == image[j]
    {
      if j / FRAME == id {
        assert id * FRAME <= j < id * FRAME + ValidLength(|image|, id);
        assert after[WRITE_OFFSET + j] == PacketData(image, id)[j - id * FRAME];
      } else {
        assert !(id * FRAME <= j < id * FRAME + FRAME);
      }
    }
  }

  lemma StoredContent(image: seq<Byte>, open: bool, fw: Assembly, area: Area, id: nat, io: Io)
    requires Live(|image|, fw, area) && Takable(fw, id) && id < MAX_PACKETS && id < PacketTotal(|image|)
    requires Content(image, area.flash, fw.accepted)
    ensures var w := WriteBlocks(|image|, open, BeginWrite(fw, id), area, id, PacketData(image, id), 0, io);
            w.verdict == Stored ==> Content(image, w.area.flash, EndWrite(w.fw, id).accepted)
  {
    hide Crc16.Update, WriteBlocks, Partition, ProgramLog, BlankOutside, LogAccepted, LogUpTo, Written, Content,
      ChecksumHolds, Takable, HandledCount;
    var data := PacketData(image, id);
    var w := WriteBlocks(|image|, open, BeginWrite(fw, id), area, id, data, 0, io);
    TakableIsNew(fw, id);
    PacketFits(|image|, fw, id);
    StartsBlank(area, fw.accepted, id);
    WriteBlocksEffect(|image|, open, BeginWrite(fw, id), area, id, data, 0, io);
    if w.verdict == Stored {
      WrittenContent(image, area.flash, w.area.flash, fw.accepted, id);
    }
  }

  lemma AcceptedByEnd(fw: Assembly, id: nat)
    ensures EndWrite(fw, id).accepted == fw.accepted + {id}
  {
  }

  lemma PacketFaithful(image: seq<Byte>, s: Session, id: nat, io: Io)
    requires Faithful(image, s) && s.state == InProgress && !s.crashed
    requires id < PacketTotal(|image|) && id < MAX_PACKETS
    ensures Faithful(image, UpdateImage(s, PacketPayload(image, id), io).next)
  {
    hide Crc16.Of, WriteBlocks, Live, ProgramLog, MarkRecovered, Content, InFlash, ImageValidated;
    PayloadReadsBack(image, id);
    LiveFits(s);
    UpdateKeeps(s, PacketPayload(image, id), io);
    var fw := s.fw;
    if id > s.fw.nextId && GapFits(s.fw, id) {
      fw := RecordGap(s.fw, id);
      RecordGapKeeps(s.imageSize, s.fw, s.area, id);
    }
    if Takable(fw, id) {
      var open := s.handleOpen || (s.fw.lastId == 0 && s.fw.nextId == 0);
      StoredContent(image, open, fw, s.area, id, io);
      AcceptedByEnd(WriteBlocks(s.imageSize, open, BeginWrite(fw, id), s.area, id, PacketData(image, id), 0, io).fw,
                    id);
    }
  }

  lemma LiveAtEnd(s: Session)
    requires Inv(s) && s.state == InProgress && !s.crashed
    ensures Live(s.imageSize, s.fw, s.area)
  {
  }

  lemma GapKeepsContent(s: Session)
    ensures AtEnd(s).accepted == s.fw.accepted
  {
  }

  lemma AllInPlace(image: seq<Byte>, fw: Assembly, area: Area)
    requires Live(|image|, fw, area) && PendingIds(fw.lost) == [] && fw.nextId * FRAME >= |image|
    requires Content(image, area.flash, fw.accepted)
    ensures InFlash(image, area.flash)
  {
    hide ChecksumHolds, BlankOutside, ProgramLog, LogAccepted, Partition;
    NothingMissing(|image|, fw);
    forall j | 0 <= j < |image|
      ensures area.flash[WRITE_OFFSET + j] == image[j]
    {
      assert j / FRAME * FRAME < |image|;
    }
  }

  lemma EndFaithful(image: seq<Byte>, s: Session, io: Io)
    requires Faithful(image, s) && s.state == InProgress && !s.crashed
    ensures Faithful(image, Finalize(s, io).next)
    ensures Finalize(s, io).error == UpgradeRequestFail ==> InFlash(image, Finalize(s, io).next.area.flash)
  {
    hide Inv, Decide, RecordGap, Content, InFlash;
    LiveAtEnd(s);
    FinalizeKeeps(s, io);
    if s.PacketCount() <= MAX_PACKETS && (s.fw.nextId < s.PacketCount() ==> GapFits(s.fw, s.PacketCount())) {
      AtEndKeeps(s);
      GapKeepsContent(s);
      var t := s.(fw := AtEnd(s));
      if PendingIds(t.fw.lost) == [] {
        AllInPlace(image, t.fw, t.area);
        DecisionKeepsFlash(t, io);
      }
    }
  }

  lemma StartFaithful(image: seq<Byte>, s: Session, io: Io)
    requires Faithful(image, s) && s.state == Idle && !s.crashed && 0 < |image| <= MAX_IMAGE
    ensures Faithful(image, StartSession(s, UpdateRequest(image), io).next)
  {
    hide Live, ReadCrc, RequestSize, ProgramLog, InFlash, ImageValidated;
    StartKeeps(s, UpdateRequest(image), io);
    RequestReadsBack(image);
  }

  lemma HostNeverWraps(image: seq<Byte>, s: Session, e: Event)
    requires 0 < |image| <= MAX_IMAGE && PacketTotal(|image|) <= MAX_PACKETS && FromHost(image, e)
    ensures !WrapStored(s, e)
  {
    if e.Message? && e.cmd == FwUpMsg {
      var id: nat :| id < PacketTotal(|image|) && id < 0x1_0000 && e.payload == PacketPayload(image, id);
      PayloadReadsBack(image, id);
    }
  }

  /** FWUpEnd finds the image complete, but the upgrade cannot be requested. */
  predicate CompletedInVain(s: Session, e: Event) {
    s.state == InProgress && e.Message? && e.cmd == FwUpEnd && Step(s, e).error == UpgradeRequestFail
  }

  lemma StepFaithful(image: seq<Byte>, s: Session, e: Event)
    requires 0 < |image| <= MAX_IMAGE && PacketTotal(|image|) <= MAX_PACKETS
    requires Faithful(image, s) && FromHost(image, e)
    ensures Faithful(image, Step(s, e).next)
    ensures CompletedInVain(s, e) ==> InFlash(image, Step(s, e).next.area.flash)
  {
    hide Inv, Content, InFlash, Finalize, UpdateImage, StartSession;
    HostNeverWraps(image, s, e);
    StepKeepsInv(s, e);
    if !s.crashed && e.Message? {
      match s.state {
        case Idle =>
          if |e.payload| == REQUEST_LENGTH && (e.cmd == FwUpReq || e.cmd == NoCommand) {
            StartFaithful(image, s, e.io);
          }
        case InProgress =>
          EndFaithful(image, s, e.io);
          if e.cmd == FwUpMsg {
            var id: nat :| id < PacketTotal(|image|) && id < 0x1_0000 && e.payload == PacketPayload(image, id);
            PacketFaithful(image, s, id, e.io);
          }
        case _ =>
      }
    }
  }

  lemma {:induction false} RunFaithful(image: seq<Byte>, s: Session, events: seq<Event>)
    requires 0 < |image| <= MAX_IMAGE && PacketTotal(|image|) <= MAX_PACKETS
    requires Faithful(image, s) && forall i :: 0 <= i < |events| ==> FromHost(image, events[i])
    ensures Faithful(image, Run(s, events))
    decreases |events|
  {
    hide Faithful, Step, FromHost;
    if events == [] {
    } else {
      var n := |events| - 1;
      RunFaithful(image, s, events[..n]);
      StepFaithful(image, Run(s, events[..n]), events[n]);
    }
  }

  /** An image that needs more than 65535 packets is refused at FWUpEnd, whatever was received of it. */
  ghost predicate Oversized(image: seq<Byte>, s: Session) {
    (s.state == InProgress ==> s.imageSize == |image|) && s.state != Reboot && s.state != Completed
  }

  lemma StartTakesSize(image: seq<Byte>, s: Session, io: Io)
    requires 0 < |image| <= MAX_IMAGE && s.state == Idle
    ensures var t := StartSession(s, UpdateRequest(image), io).next;
            t.imageSize == |image| && t.state in {Idle, InProgress}
  {
    hide RequestSize, ReadCrc;
    RequestReadsBack(image);
  }

  lemma MismatchKeepsSize(s: Session, id: nat)
    ensures var o := CheckMismatch(s, id);
            if o.ok then o.next.state == s.state && o.next.imageSize == s.imageSize
            else o.next.state == Error || o.next == s
  {
    hide Gap, IndexOf;
  }

  lemma StoreKeepsSize(s: Session, id: nat, data: seq<Byte>, first: bool, io: Io)
    requires |data| == FRAME && s.state == InProgress
    ensures var u := StorePacket(s, id, data, first, io).next;
            u.state == Error || (u.state == InProgress && u.imageSize == s.imageSize)
  {
    hide WriteBlocks, EndWrite, BeginWrite;
  }

  lemma UpdateKeepsSize(s: Session, payload: seq<Byte>, io: Io)
    requires s.state == InProgress
    ensures var t := UpdateImage(s, payload, io).next;
            t.state == Error || (t.state == InProgress && t.imageSize == s.imageSize)
  {
    hide StorePacket, CheckMismatch;
    if |payload| == PACKET_LENGTH {
      var id := GetU16(payload[..2]);
      MismatchKeepsSize(s, id);
      forall t: Session, data: seq<Byte>, first: bool | |data| == FRAME && t.state == InProgress
        ensures var u := StorePacket(t, id, data, first, io).next;
                u.state == Error || (u.state == InProgress && u.imageSize == t.imageSize)
      {
        StoreKeepsSize(t, id, data, first, io);
      }
    }
  }

  lemma OversizedStep(image: seq<Byte>, s: Session, e: Event)
    requires 0 < |image| <= MAX_IMAGE && PacketTotal(|image|) > MAX_PACKETS
    requires Oversized(image, s) && FromHost(image, e)
    ensures Oversized(image, Step(s, e).next)
  {
    hide UpdateImage, StartSession;
    if !s.crashed && e.Message? {
      if s.state == Idle && |e.payload| == REQUEST_LENGTH && (e.cmd == FwUpReq || e.cmd == NoCommand) {
        StartTakesSize(image, s, e.io);
      } else if s.state == InProgress && e.cmd == FwUpMsg {
        UpdateKeepsSize(s, e.payload, e.io);
      }
    }
  }

  lemma {:induction false} OversizedNeverCompletes(image: seq<Byte>, s: Session, events: seq<Event>)
    requires 0 < |image| <= MAX_IMAGE && PacketTotal(|image|) > MAX_PACKETS
    requires Oversized(image, s) && forall i :: 0 <= i < |events| ==> FromHost(image, events[i])
    ensures Oversized(image, Run(s, events))
    decreases |events|
  {
    hide Oversized, Step, FromHost;
    if events == [] {
    } else {
      var n := |events| - 1;
      OversizedNeverCompletes(image, s, events[..n]);
      OversizedStep(image, Run(s, events[..n]), events[n]);
    }
  }

  lemma StartsFaithful(image: seq<Byte>, s: Session)
    requires s.state in {Idle, Error} && ProgramLog(s.area)
    ensures Faithful(image, s)
  {
    hide ProgramLog;
  }

  lemma RebootFaithful(image: seq<Byte>, s: Session)
    requires Faithful(image, s)
    ensures s.state == Reboot ==> InFlash(image, s.area.flash)
  {
  }

  lemma RunEnds(s: Session, events: seq<Event>)
    requires events != []
    ensures Run(s, events) == Step(Run(s, events[..|events| - 1]), events[|events| - 1]).next
  {
    hide Step;
  }

  lemma OversizedRefused(image: seq<Byte>, s: Session, e: Event)
    requires PacketTotal(|image|) > MAX_PACKETS && Oversized(image, s)
    ensures !CompletedInVain(s, e)
  {
    hide GapFits, RecordGap, PendingIds, Decide;
  }

  /** From any idle target, over every run in which the host's packets of one image are lost, repeated or reordered
      in any way and every other event is free: a target that reaches Reboot holds exactly that image, and so does one
      that completes and fails only to request the upgrade. */
  lemma ImageArrivesIntact(image: seq<Byte>, s: Session, events: seq<Event>)
    requires 0 < |image| <= MAX_IMAGE
    requires s.state in {Idle, Error} && ProgramLog(s.area)
    requires forall i :: 0 <= i < |events| ==> FromHost(image, events[i])
    ensures var t := Run(s, events);
            t.state == Reboot ==> InFlash(image, t.area.flash)
    ensures events != [] ==>
              var n := |events| - 1;
              CompletedInVain(Run(s, events[..n]), events[n]) ==> InFlash(image, Run(s, events).area.flash)
  {
    hide Run, FromHost, InFlash, ProgramLog, CompletedInVain, Faithful;
    if PacketTotal(|image|) <= MAX_PACKETS {
      StartsFaithful(image, s);
      RunFaithful(image, s, events);
      RebootFaithful(image, Run(s, events));
      if events != [] {
        var n := |events| - 1;
        RunFaithful(image, s, events[..n]);
        StepFaithful(image, Run(s, events[..n]), events[n]);
        RunEnds(s, events);
      }
    } else {
      OversizedNeverCompletes(image, s, events);
      if events != [] {
        var n := |events| - 1;
        OversizedNeverCompletes(image, s, events[..n]);
        OversizedRefused(image, Run(s, events[..n]), events[n]);
      }
    }
  }
}
