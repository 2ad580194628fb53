/** Safety of the firmware target over whole runs, whatever the bytes it is sent. */
module FirmwareSafety {
  import opened Bytes
  import opened Register16
  import opened FirmwareSession
  import opened FirmwareInvariant
  import Crc16

  // ---- id 0xFFFF ----

  /** Size of the slot on the device: 20480 packets fit in it. */
  const SLOT_SIZE: nat := 0xF_2000

  /** No room for packet 0xFFFF. */
  predicate SmallSlot(area: Area) { |area.flash| < WRITE_OFFSET + MAX_PACKETS * FRAME }

  /** Block `k` of packet `id` is behind the image, or there is room for it, a handle to write it by and no failure. */
  predicate BlockGoes(s: Session, id: nat, k: nat, io: Io) {
    var off := id * FRAME + k * BLOCK;
    off < s.imageSize ==> off + BLOCK <= s.area.Available() && s.handleOpen && io.failAt != k
  }

  /** A data packet with id 0xFFFF that is expected, or skips ids that fit in the table, and can be stored.
      After it the expected id is 0 again. */
  predicate WrapStored(s: Session, e: Event) {
    && s.state == InProgress && !s.crashed
    && e.Message? && e.cmd == FwUpMsg && |e.payload| == PACKET_LENGTH && GetU16(e.payload[..2]) == MAX_PACKETS
    && s.fw.nextId <= MAX_PACKETS && GapFits(s.fw, MAX_PACKETS)
    && MAX_PACKETS * FRAME <= s.area.Available()
    && BlockGoes(s, MAX_PACKETS, 0, e.io) && BlockGoes(s, MAX_PACKETS, 1, e.io) && BlockGoes(s, MAX_PACKETS, 2, e.io)
  }

  lemma SmallSlotNeverWraps(s: Session, e: Event)
    requires SmallSlot(s.area)
    ensures !WrapStored(s, e)
  {
  }

  /** A packet is stored exactly when each of its blocks is. */
  lemma {:induction false} StoredExactly(s: Session, fw: Assembly, area: Area, id: nat, data: seq<Byte>, k: nat, io: Io)
    requires |data| == FRAME && k <= 3 && ReadyForBlock(s.imageSize, fw, area, id, k)
    requires |area.flash| == |s.area.flash| && id * FRAME + k * BLOCK <= s.area.Available()
    ensures WriteBlocks(s.imageSize, s.handleOpen, fw, area, id, data, k, io).verdict == Stored <==>
              (k <= 0 ==> BlockGoes(s, id, 0, io)) && (k <= 1 ==> BlockGoes(s, id, 1, io)) &&
              (k <= 2 ==> BlockGoes(s, id, 2, io))
    decreases 3 - k
  {
    hide Count, ProgramBlock, Written, LogUpTo, ProgramLog, BlankFrom;
    var off := id * FRAME + k * BLOCK;
    if k == 3 || off >= s.imageSize {
    } else if off + BLOCK <= area.Available() && s.handleOpen && io.failAt != k {
      var chunk := Chunk(s.imageSize, id, data, k);
      BlockStored(s.imageSize, fw, area, id, data, k);
      StoredExactly(s, Count(fw, chunk), ProgramBlock(area, off, chunk), id, data, k + 1, io);
    }
  }

  lemma LiveFits(s: Session)
    requires Inv(s) && s.state == InProgress && !s.crashed
    ensures 0 < s.imageSize <= s.area.Available() && !s.fw.writing && s.fw.nextId <= MAX_PACKETS
    ensures |s.fw.lost| <= MAX_LOST
  {
  }

  lemma NoRoom(size: nat, open: bool, fw: Assembly, area: Area, id: nat, data: seq<Byte>, io: Io)
    requires |data| == FRAME && id * FRAME > area.Available()
    ensures WriteBlocks(size, open, fw, area, id, data, 0, io).verdict != Stored
  {
  }

  lemma MarkKeepsNext(fw: Assembly, id: nat)
    ensures MarkRecovered(fw, id).nextId == fw.nextId && MarkRecovered(fw, id).accepted == fw.accepted
  {
  }

  lemma WrapWrites(s: Session, fw: Assembly, data: seq<Byte>, io: Io)
    requires Live(s.imageSize, fw, s.area) && fw.nextId == MAX_PACKETS && |data| == FRAME
    ensures var begun := BeginWrite(fw, MAX_PACKETS);
            var w := WriteBlocks(s.imageSize, s.handleOpen, begun, s.area, MAX_PACKETS, data, 0, io);
            && ProgramLog(w.area)
            && (w.verdict == Stored <==>
                  MAX_PACKETS * FRAME <= s.area.Available() && BlockGoes(s, MAX_PACKETS, 0, io) &&
                  BlockGoes(s, MAX_PACKETS, 1, io) && BlockGoes(s, MAX_PACKETS, 2, io))
            && (w.verdict == Stored ==> !Live(s.imageSize, EndWrite(w.fw, MAX_PACKETS), w.area))
  {
    hide Crc16.Update, WriteBlocks, ProgramLog, BlockGoes, ChecksumHolds, Covered, HandledCount, Written;
    var begun := BeginWrite(fw, MAX_PACKETS);
    PacketFits(s.imageSize, fw, MAX_PACKETS);
    StartsBlank(s.area, fw.accepted, MAX_PACKETS);
    WriteBlocksEffect(s.imageSize, s.handleOpen, begun, s.area, MAX_PACKETS, data, 0, io);
    if MAX_PACKETS * FRAME <= s.area.Available() {
      StoredExactly(s, begun, s.area, MAX_PACKETS, data, 0, io);
    } else {
      NoRoom(s.imageSize, s.handleOpen, begun, s.area, MAX_PACKETS, data, io);
    }
    var w := WriteBlocks(s.imageSize, s.handleOpen, begun, s.area, MAX_PACKETS, data, 0, io);
    if w.verdict == Stored {
      MarkKeepsNext(w.fw.(writing := false, accepted := w.fw.accepted + {MAX_PACKETS}), MAX_PACKETS);
    }
  }

  /** Packet 0xFFFF breaks the split of the ids exactly when it is stored: 0 is expected although 0xFFFF is accepted. */
  lemma WrapUpdate(s: Session, payload: seq<Byte>, io: Io)
    requires Inv(s) && s.state == InProgress && !s.crashed
    requires |payload| == PACKET_LENGTH && GetU16(payload[..2]) == MAX_PACKETS
    ensures Inv(UpdateImage(s, payload, io).next) <==> !WrapStored(s, Message(FwUpMsg, payload, io))
  {
    hide Crc16.Of, WriteBlocks, Live, ProgramLog, MarkRecovered, BlockGoes;
    LiveFits(s);
    if GapFits(s.fw, MAX_PACKETS) {
      var fw := if s.fw.nextId < MAX_PACKETS then RecordGap(s.fw, MAX_PACKETS) else s.fw;
      if s.fw.nextId < MAX_PACKETS {
        RecordGapKeeps(s.imageSize, s.fw, s.area, MAX_PACKETS);
      }
      WrapWrites(s, fw, payload[2..], io);
    }
  }

  // ---- one event ----

  lemma ClearedKeeps(s: Session)
    requires ProgramLog(s.area)
    ensures Inv(Abort(s)) && Inv(Reinit(s))
  {
  }

  lemma WreckKeepsLog(area: Area, io: Io)
    requires ProgramLog(area)
    ensures ProgramLog(Wreck(area, io))
  {
  }

  lemma LogFresh(n: nat)
    ensures ProgramLog(Area(Erased(n), []))
  {
  }

  lemma FreshLive(size: nat, n: nat)
    requires 0 < size <= n - WRITE_OFFSET
    ensures Live(size, FreshAssembly({}), Area(Erased(n), []))
  {
    hide Crc16.Update;
    var flash := Erased(n);
    assert flash[WRITE_OFFSET..WRITE_OFFSET + 0] == [];
    Crc16.UpdateNil(Crc16.INIT);
  }

  lemma StartKeeps(s: Session, payload: seq<Byte>, io: Io)
    requires ProgramLog(s.area) && s.state == Idle && !s.crashed && |payload| == REQUEST_LENGTH
    ensures Inv(StartSession(s, payload, io).next)
  {
    hide Live, ReadCrc, RequestSize, ProgramLog;
    LogFresh(|s.area.flash|);
    var size := RequestSize(payload);
    assert ProgramLog(Wreck(s.area, io)) by { WreckKeepsLog(s.area, io); }
    if 0 < size <= s.area.Available() {
      FreshLive(size, |s.area.flash|);
    }
  }

  lemma UpdateKeeps(s: Session, payload: seq<Byte>, io: Io)
    requires Inv(s) && s.state == InProgress && !s.crashed
    requires |payload| == PACKET_LENGTH ==> GetU16(payload[..2]) < MAX_PACKETS
    ensures Inv(UpdateImage(s, payload, io).next)
  {
    hide Crc16.Of, WriteBlocks, Live, ProgramLog, MarkRecovered;
    LiveFits(s);
    if |payload| == PACKET_LENGTH {
      var id := GetU16(payload[..2]);
      var fw := s.fw;
      if id > s.fw.nextId {
        if GapFits(s.fw, id) {
          fw := RecordGap(s.fw, id);
          RecordGapKeeps(s.imageSize, s.fw, s.area, id);
        }
      }
      if Takable(fw, id) {
        var open := s.handleOpen || (s.fw.lastId == 0 && s.fw.nextId == 0);
        StoredKeepsLive(s.imageSize, open, fw, s.area, id, payload[2..], io);
      }
    }
  }

  lemma {:induction false} AllHandled(lost: seq<LostEntry>)
    requires PendingIds(lost) == []
    ensures forall k :: 0 <= k < |lost| ==> lost[k].handled
  {
    if lost == [] {
    } else {
      AllHandled(lost[..|lost| - 1]);
    }
  }

  /** With nothing pending and every byte received, each packet that carries data was accepted. */
  lemma NothingMissing(size: nat, fw: Assembly)
    requires Bookkeeping(size, fw) && PendingIds(fw.lost) == [] && fw.nextId * FRAME >= size
    ensures fw.received == size && fw.recovered == |fw.lost|
    ensures forall id: nat :: id * FRAME < size ==> id in fw.accepted
  {
    HandledAndPending(fw.lost);
    AllHandled(fw.lost);
    forall id: nat | id < fw.nextId
      ensures id in fw.accepted
    {
      if InTable(fw.lost, id) {
        var k :| 0 <= k < |fw.lost| && fw.lost[k].id == id;
        assert fw.lost[k].handled;
      }
    }
    CoveredBound(fw.accepted, fw.nextId, size);
  }

  /** The frozen prefix checksum, continued over what flash holds after it, is the checksum of the whole image. */
  lemma Splice(size: nat, fw: Assembly, area: Area)
    requires Live(size, fw, area) && fw.lostActive && FRAME * fw.firstLost <= size
    ensures Crc16.Update(fw.runningCrc, Tail(size, area, FRAME * fw.firstLost))
         == Crc16.Of(area.flash[WRITE_OFFSET..WRITE_OFFSET + size])
  {
    hide Crc16.Update;
    var cut := WRITE_OFFSET + FRAME * fw.firstLost;
    var image := area.flash[WRITE_OFFSET..WRITE_OFFSET + size];
    assert ChecksumLength(size, fw) == FRAME * fw.firstLost;
    assert image == area.flash[WRITE_OFFSET..cut] + area.flash[cut..WRITE_OFFSET + size];
    assert area.flash[cut..WRITE_OFFSET + size] == Tail(size, area, FRAME * fw.firstLost);
    Crc16.UpdateConcat(Crc16.INIT, area.flash[WRITE_OFFSET..cut], area.flash[cut..WRITE_OFFSET + size]);
  }

  /** The record on which FWUpEnd decides: the tail that never arrived is lost too. */
  function AtEnd(s: Session): Assembly {
    if s.fw.nextId < s.PacketCount() then RecordGap(s.fw, s.PacketCount()) else s.fw
  }

  lemma AtEndKeeps(s: Session)
    requires Live(s.imageSize, s.fw, s.area) && s.PacketCount() <= MAX_PACKETS
    requires s.fw.nextId < s.PacketCount() ==> GapFits(s.fw, s.PacketCount())
    ensures Live(s.imageSize, AtEnd(s), s.area) && AtEnd(s).nextId * FRAME >= s.imageSize
    ensures !AtEnd(s).lostActive ==> AtEnd(s).lost == []
  {
    hide ChecksumHolds, BlankOutside, ProgramLog, LogAccepted, Partition;
    if s.fw.nextId < s.PacketCount() {
      RecordGapKeeps(s.imageSize, s.fw, s.area, s.PacketCount());
    }
  }

  lemma DecisionKeeps(s: Session, io: Io)
    requires Live(s.imageSize, s.fw, s.area) && s.state == InProgress && !s.crashed
    requires PendingIds(s.fw.lost) == [] && s.fw.nextId * FRAME >= s.imageSize
    ensures Inv(Decide(s, io).next) && Decide(s, io).error != UndefinedBehavior
  {
    hide Crc16.Update, ProgramLog, BlankOutside, LogAccepted, Partition;
    NothingMissing(s.imageSize, s.fw);
    ClearedKeeps(s);
    if s.fw.lostActive {
      if FRAME * s.fw.firstLost <= s.imageSize {
        Splice(s.imageSize, s.fw, s.area);
      }
    } else {
      assert ChecksumLength(s.imageSize, s.fw) == s.imageSize;
    }
  }

  lemma FinalizeKeeps(s: Session, io: Io)
    requires Inv(s) && s.state == InProgress && !s.crashed
    ensures Inv(Finalize(s, io).next)
    ensures Finalize(s, io).error != UndefinedBehavior
  {
    hide Live, Crc16.Update, ProgramLog, ImageValidated, RecordGap;
    ClearedKeeps(s);
    if s.PacketCount() <= MAX_PACKETS && (s.fw.nextId < s.PacketCount() ==> GapFits(s.fw, s.PacketCount())) {
      AtEndKeeps(s);
      var t := s.(fw := AtEnd(s));
      if PendingIds(t.fw.lost) == [] {
        DecisionKeeps(t, io);
      }
    }
  }

  /** Every event keeps the invariant, but for the packet after which the expected id wraps. */
  lemma StepKeepsInv(s: Session, e: Event)
    requires Inv(s)
    ensures Inv(Step(s, e).next) <==> !WrapStored(s, e)
  {
    hide Live, ImageValidated, ProgramLog, Finalize, UpdateImage, StartSession, BlockGoes;
    if !s.crashed {
      ClearedKeeps(s);
      if e.Message? {
        match s.state {
          case Idle =>
            if |e.payload| == REQUEST_LENGTH {
              StartKeeps(s, e.payload, e.io);
            }
          case InProgress =>
            FinalizeKeeps(s, e.io);
            if e.cmd == FwUpMsg {
              if |e.payload| == PACKET_LENGTH && GetU16(e.payload[..2]) == MAX_PACKETS {
                WrapUpdate(s, e.payload, e.io);
              } else {
                UpdateKeeps(s, e.payload, e.io);
              }
            }
          case _ =>
        }
      }
    }
  }

  lemma StartKeepsSlot(s: Session, payload: seq<Byte>, io: Io)
    requires |payload| == REQUEST_LENGTH
    ensures |StartSession(s, payload, io).next.area.flash| == |s.area.flash|
  {
    hide RequestSize, ReadCrc;
  }

  lemma DecisionKeepsFlash(s: Session, io: Io)
    ensures var t := Decide(s, io).next;
            t.area == s.area && (s.state == InProgress && t.state == InProgress ==> t.crashed)
  {
    hide Crc16.Update, Tail, TailReadable;
  }

  lemma EndKeepsSlot(s: Session, io: Io)
    ensures |Finalize(s, io).next.area.flash| == |s.area.flash|
  {
    hide Decide, PendingIds, Gap, GapFits, PacketTotal;
    var t := if s.fw.nextId < s.PacketCount() then s.(fw := RecordGap(s.fw, s.PacketCount())) else s;
    DecisionKeepsFlash(t, io);
  }

  lemma {:induction false} BlocksFromKeepSlot(
    size: nat, open: bool, fw: Assembly, area: Area, id: nat, data: seq<Byte>, k: nat, io: Io)
    requires |data| == FRAME && k <= 3
    ensures |WriteBlocks(size, open, fw, area, id, data, k, io).area.flash| == |area.flash|
    decreases 3 - k
  {
    hide Count;
    var off := id * FRAME + k * BLOCK;
    if k == 3 || off >= size || off + BLOCK > area.Available() {
    } else {
      var chunk := Chunk(size, id, data, k);
      BlocksFromKeepSlot(size, open, Count(fw, chunk), ProgramBlock(area, off, chunk), id, data, k + 1, io);
    }
  }

  lemma UpdateKeepsSlot(s: Session, payload: seq<Byte>, io: Io)
    ensures |UpdateImage(s, payload, io).next.area.flash| == |s.area.flash|
  {
    hide WriteBlocks, EndWrite, BeginWrite, RecordGap, IndexOf;
    if |payload| == PACKET_LENGTH {
      var id := GetU16(payload[..2]);
      var first := s.fw.lastId == 0 && s.fw.nextId == 0;
      var t := if s.fw.nextId == id then s else CheckMismatch(s, id).next;
      BlocksFromKeepSlot(t.imageSize, t.handleOpen || first, BeginWrite(t.fw, id), t.area, id, payload[2..], 0, io);
    }
  }

  /** No event changes the size of the slot. */
  lemma StepKeepsSlot(s: Session, e: Event)
    ensures |Step(s, e).next.area.flash| == |s.area.flash|
  {
    hide UpdateImage, Finalize, StartSession, PageOf;
    if e.Message? {
      UpdateKeepsSlot(s, e.payload, e.io);
      EndKeepsSlot(s, e.io);
      if |e.payload| == REQUEST_LENGTH {
        StartKeepsSlot(s, e.payload, e.io);
      }
    }
  }

  // ---- whole runs ----

  lemma RunSnoc(s: Session, events: seq<Event>, n: nat)
    requires n < |events|
    ensures Run(s, events[..n + 1]) == Step(Run(s, events[..n]), events[n]).next
  {
    hide Step;
    assert events[..n + 1][..n] == events[..n];
  }

  lemma {:induction false} InvUpTo(s: Session, events: seq<Event>, n: nat)
    requires Inv(s) && n <= |events|
    requires forall i :: 0 <= i < n ==> !WrapStored(Run(s, events[..i]), events[i])
    ensures Inv(Run(s, events[..n]))
    decreases n
  {
    hide Inv, Step, WrapStored;
    if n == 0 {
      assert events[..0] == [];
    } else {
      InvUpTo(s, events, n - 1);
      RunSnoc(s, events, n - 1);
      StepKeepsInv(Run(s, events[..n - 1]), events[n - 1]);
    }
  }

  /** In every run, of any length and with any bytes in its packets: the ids split into accepted and pending ones,
      no flash block is programmed twice or out of bounds, and a session that reaches Reboot left an image in flash
      whose checksum is the one requested. This holds all along exactly when no packet with id 0xFFFF is stored. */
  lemma RunKeepsInv(s: Session, events: seq<Event>)
    requires Inv(s)
    ensures (forall n :: 0 <= n <= |events| ==> Inv(Run(s, events[..n]))) <==>
            (forall n :: 0 <= n < |events| ==> !WrapStored(Run(s, events[..n]), events[n]))
  {
    hide Inv, Step, WrapStored, Run;
    if forall n :: 0 <= n < |events| ==> !WrapStored(Run(s, events[..n]), events[n]) {
      forall n | 0 <= n <= |events|
        ensures Inv(Run(s, events[..n]))
      {
        InvUpTo(s, events, n);
      }
    } else {
      var n :| 0 <= n < |events| && WrapStored(Run(s, events[..n]), events[n]);
      RunSnoc(s, events, n);
      if Inv(Run(s, events[..n])) {
        StepKeepsInv(Run(s, events[..n]), events[n]);
        assert !Inv(Run(s, events[..n + 1]));
      }
    }
  }

  /** On a slot without room for packet 0xFFFF, as the device's, the invariant holds in every run. */
  lemma {:induction false} SmallSlotKeepsInv(s: Session, events: seq<Event>)
    requires Inv(s) && SmallSlot(s.area)
    ensures Inv(Run(s, events)) && SmallSlot(Run(s, events).area)
    decreases |events|
  {
    hide Inv, Step, WrapStored;
    if events == [] {
    } else {
      var n := |events| - 1;
      SmallSlotKeepsInv(s, events[..n]);
      SmallSlotNeverWraps(Run(s, events[..n]), events[n]);
      StepKeepsInv(Run(s, events[..n]), events[n]);
      StepKeepsSlot(Run(s, events[..n]), events[n]);
    }
  }

  /** On the device, then, nothing a host can send breaks it. */
  lemma DeviceKeepsInv(s: Session, events: seq<Event>)
    requires Inv(s) && |s.area.flash| == SLOT_SIZE
    ensures Inv(Run(s, events))
  {
    hide Inv, Run;
    SmallSlotKeepsInv(s, events);
  }

  // ---- the flash handle ----

  /** The flash handle is open exactly when an id other than the first is expected. */
  ghost predicate HandleReady(s: Session) {
    s.state == InProgress ==> (s.handleOpen <==> s.fw.nextId > 0)
  }

  /** FWUpEnd before any data packet, on an image whose packets all fit in the lost table. */
  ghost predicate EarlyEnd(s: Session, e: Event) {
    && s.state == InProgress && e.Message? && e.cmd == FwUpEnd
    && s.fw.nextId == 0 && s.PacketCount() <= MAX_LOST
  }

  lemma EmptyTable(fw: Assembly)
    requires Partition(fw.accepted, fw.lost, fw.nextId) && fw.nextId == 0
    ensures fw.lost == []
  {
    assert fw.lost == [] || fw.lost[0].id < fw.nextId;
  }

  lemma GapPending(from: nat, upTo: nat)
    requires from < upTo
    ensures [] + Gap(from, upTo) == Gap(from, upTo) && PendingIds(Gap(from, upTo)) != []
  {
    var g := Gap(from, upTo);
    assert g[|g| - 1] == LostEntry(upTo - 1, false);
  }

  lemma OpenDecides(s: Session, io: Io)
    requires s.state == InProgress && !s.crashed && s.handleOpen
    ensures !Decide(s, io).next.crashed && Decide(s, io).next.state != InProgress
  {
    hide Crc16.Update, Tail, TailReadable;
  }

  lemma LiveStart(s: Session)
    requires Inv(s) && s.state == InProgress && !s.crashed
    ensures s.fw.nextId == 0 ==> s.fw.lastId == 0 && s.fw.lost == []
    ensures s.area.Available() > 0 && !s.fw.writing
  {
    if s.fw.nextId == 0 {
      EmptyTable(s.fw);
    }
  }

  lemma EndUsesHandle(s: Session, io: Io)
    requires Inv(s) && s.state == InProgress && HandleReady(s) && !s.crashed
    ensures var t := Finalize(s, io).next;
            HandleReady(t) && !t.crashed <==> !(s.fw.nextId == 0 && s.PacketCount() <= MAX_LOST)
  {
    hide Live, ImageValidated, ProgramLog, Decide, PendingIds, Gap, Min;
    LiveFits(s);
    LiveStart(s);
    if s.fw.nextId == 0 {
      GapPending(0, s.PacketCount());
    } else {
      var t := if s.fw.nextId < s.PacketCount() then s.(fw := RecordGap(s.fw, s.PacketCount())) else s;
      OpenDecides(t, io);
    }
  }

  lemma {:induction false} OpenNeverCrashes(size: nat, fw: Assembly, area: Area, id: nat, data: seq<Byte>, k: nat,
                                            io: Io)
    requires |data| == FRAME && k <= 3
    ensures var w := WriteBlocks(size, true, fw, area, id, data, k, io);
            w.verdict != Crash && w.fw.nextId == fw.nextId
    decreases 3 - k
  {
    hide Crc16.Update, ProgramBlock, Wreck;
    var off := id * FRAME + k * BLOCK;
    if k < 3 && off < size && off + BLOCK <= area.Available() && io.failAt != k {
      var chunk := Chunk(size, id, data, k);
      OpenNeverCrashes(size, Count(fw, chunk), ProgramBlock(area, off, chunk), id, data, k + 1, io);
    }
  }

  lemma StoreUsesHandle(s: Session, id: nat, data: seq<Byte>, first: bool, io: Io)
    requires s.state == InProgress && !s.crashed && (s.handleOpen || first) && id < MAX_PACKETS && |data| == FRAME
    ensures var t := StorePacket(s, id, data, first, io).next;
            HandleReady(t) && !t.crashed
  {
    hide WriteBlocks, MarkRecovered;
    OpenNeverCrashes(s.imageSize, BeginWrite(s.fw, id), s.area, id, data, 0, io);
    var w := WriteBlocks(s.imageSize, true, BeginWrite(s.fw, id), s.area, id, data, 0, io);
    MarkKeepsNext(w.fw.(writing := false, accepted := w.fw.accepted + {id}), id);
  }

  lemma MismatchKeepsHandle(s: Session, id: nat)
    requires s.state == InProgress && !s.crashed && HandleReady(s)
    ensures var o := CheckMismatch(s, id);
            if o.ok then o.next == s.(fw := o.next.fw) else HandleReady(o.next) && !o.next.crashed
  {
    hide RecordGap, IndexOf;
  }

  lemma DataUsesHandle(s: Session, payload: seq<Byte>, io: Io)
    requires Inv(s) && s.state == InProgress && HandleReady(s) && !s.crashed
    requires |payload| == PACKET_LENGTH ==> GetU16(payload[..2]) < MAX_PACKETS
    ensures var t := UpdateImage(s, payload, io).next;
            HandleReady(t) && !t.crashed
  {
    hide Inv, StorePacket, CheckMismatch;
    LiveStart(s);
    if |payload| == PACKET_LENGTH {
      var id := GetU16(payload[..2]);
      MismatchKeepsHandle(s, id);
      var t := if s.fw.nextId == id then s else CheckMismatch(s, id).next;
      if s.fw.nextId == id || CheckMismatch(s, id).ok {
        StoreUsesHandle(t, id, payload[2..], s.fw.lastId == 0 && s.fw.nextId == 0, io);
      }
    }
  }

  lemma WrapUsesHandle(s: Session, payload: seq<Byte>, io: Io)
    requires Inv(s) && s.state == InProgress && HandleReady(s) && !s.crashed
    requires |payload| == PACKET_LENGTH && GetU16(payload[..2]) == MAX_PACKETS
    ensures var t := UpdateImage(s, payload, io).next;
            HandleReady(t) && !t.crashed <==> !WrapStored(s, Message(FwUpMsg, payload, io))
  {
    hide Crc16.Of, WriteBlocks, Live, ProgramLog, MarkRecovered, BlockGoes, ImageValidated;
    LiveFits(s);
    if GapFits(s.fw, MAX_PACKETS) {
      var fw := if s.fw.nextId < MAX_PACKETS then RecordGap(s.fw, MAX_PACKETS) else s.fw;
      if s.fw.nextId < MAX_PACKETS {
        RecordGapKeeps(s.imageSize, s.fw, s.area, MAX_PACKETS);
      }
      WrapWrites(s, fw, payload[2..], io);
      OpenNeverCrashes(s.imageSize, BeginWrite(fw, MAX_PACKETS), s.area, MAX_PACKETS, payload[2..], 0, io);
      var w := WriteBlocks(s.imageSize, true, BeginWrite(fw, MAX_PACKETS), s.area, MAX_PACKETS, payload[2..], 0, io);
      MarkKeepsNext(w.fw.(writing := false, accepted := w.fw.accepted + {MAX_PACKETS}), MAX_PACKETS);
    }
  }

  lemma PacketUsesHandle(s: Session, payload: seq<Byte>, io: Io)
    requires Inv(s) && s.state == InProgress && HandleReady(s) && !s.crashed
    ensures var t := UpdateImage(s, payload, io).next;
            HandleReady(t) && !t.crashed <==> !WrapStored(s, Message(FwUpMsg, payload, io))
  {
    hide Inv, UpdateImage, HandleReady, BlockGoes;
    if |payload| == PACKET_LENGTH && GetU16(payload[..2]) == MAX_PACKETS {
      WrapUsesHandle(s, payload, io);
    } else {
      DataUsesHandle(s, payload, io);
    }
  }

  /** The handle is ready after an event, and no closed handle was used, exactly unless the event is an early end
      or wraps the expected id. */
  lemma HandleStaysReady(s: Session, e: Event)
    requires Inv(s) && HandleReady(s) && !s.crashed
    ensures HandleReady(Step(s, e).next) && !Step(s, e).next.crashed <==> !EarlyEnd(s, e) && !WrapStored(s, e)
  {
    hide BlockGoes, ImageValidated, ProgramLog, Finalize, UpdateImage, ChecksumHolds, BlankOutside, LogAccepted,
      Partition;
    if s.state == InProgress && e.Message? {
      if e.cmd == FwUpEnd {
        EndUsesHandle(s, e.io);
      } else if e.cmd == FwUpMsg {
        PacketUsesHandle(s, e.payload, e.io);
      }
    }
  }

  /** Where a run stands while all is well: the invariant holds and the handle is ready. */
  ghost predicate Sound(s: Session) { Inv(s) && HandleReady(s) && !s.crashed }

  lemma SoundStep(s: Session, e: Event)
    requires Sound(s)
    ensures Sound(Step(s, e).next) <==> !EarlyEnd(s, e) && !WrapStored(s, e)
  {
    hide Inv, HandleReady, Step, EarlyEnd, WrapStored;
    HandleStaysReady(s, e);
    StepKeepsInv(s, e);
  }

  lemma {:induction false} SoundUpTo(s: Session, events: seq<Event>, n: nat)
    requires Sound(s) && n <= |events|
    requires forall i :: 0 <= i < n ==>
               !EarlyEnd(Run(s, events[..i]), events[i]) && !WrapStored(Run(s, events[..i]), events[i])
    ensures Sound(Run(s, events[..n]))
    decreases n
  {
    hide Sound, Step, WrapStored, EarlyEnd;
    if n == 0 {
      assert events[..0] == [];
    } else {
      SoundUpTo(s, events, n - 1);
      RunSnoc(s, events, n - 1);
      SoundStep(Run(s, events[..n - 1]), events[n - 1]);
    }
  }

  /** The handle is ready and the invariant holds all along a run exactly when it has no early end and no wrap. */
  lemma RunStaysReady(s: Session, events: seq<Event>)
    requires Sound(s)
    ensures (forall n :: 0 <= n <= |events| ==> Sound(Run(s, events[..n]))) <==>
            (forall n :: 0 <= n < |events| ==>
               !EarlyEnd(Run(s, events[..n]), events[n]) && !WrapStored(Run(s, events[..n]), events[n]))
  {
    hide Sound, Step, WrapStored, EarlyEnd, Run;
    if forall n :: 0 <= n < |events| ==>
         !EarlyEnd(Run(s, events[..n]), events[n]) && !WrapStored(Run(s, events[..n]), events[n]) {
      forall n | 0 <= n <= |events|
        ensures Sound(Run(s, events[..n]))
      {
        SoundUpTo(s, events, n);
      }
    } else {
      var n :| 0 <= n < |events| &&
               (EarlyEnd(Run(s, events[..n]), events[n]) || WrapStored(Run(s, events[..n]), events[n]));
      RunSnoc(s, events, n);
      if Sound(Run(s, events[..n])) {
        SoundStep(Run(s, events[..n]), events[n]);
        assert !Sound(Run(s, events[..n + 1]));
      }
    }
  }

  lemma EarlyEndAsks(s: Session, io: Io)
    requires Inv(s) && s.state == InProgress && !s.crashed && s.fw.nextId == 0 && s.PacketCount() <= MAX_LOST
    ensures Finalize(s, io) == Refuse(EnterRecovery(s.(fw := RecordGap(s.fw, s.PacketCount()))), MissingPacketsPending)
    ensures s.fw.lost == [] && !s.fw.writing && 0 < s.imageSize
  {
    hide ImageValidated, ProgramLog, ChecksumHolds, BlankOutside, LogAccepted, Partition, Crc16.Update;
    EmptyTable(s.fw);
    GapPending(0, s.PacketCount());
  }

  lemma FirstBlockCrashes(size: nat, fw: Assembly, area: Area, id: nat, data: seq<Byte>, io: Io)
    requires |data| == FRAME && id * FRAME < size && (id + 1) * FRAME <= area.Available()
    ensures WriteBlocks(size, false, fw, area, id, data, 0, io).verdict == Crash
  {
  }

  lemma ClosedHandleCrashes(t: Session, payload: seq<Byte>, io: Io)
    requires |payload| == PACKET_LENGTH && t.fw.nextId == t.PacketCount() && t.fw.lost == Gap(0, t.PacketCount())
    requires !t.fw.writing && !t.handleOpen && t.PacketCount() > 0
    requires GetU16(payload[..2]) < t.PacketCount() && (GetU16(payload[..2]) + 1) * FRAME <= t.area.Available()
    ensures UpdateImage(t, payload, io).next.crashed
  {
    hide Crc16.Update, MarkRecovered, WriteBlocks;
    var id := GetU16(payload[..2]);
    assert t.fw.lost[id] == LostEntry(id, false);
    FirstBlockCrashes(t.imageSize, BeginWrite(t.fw, id), t.area, id, payload[2..], io);
  }

  /** What an early end does: it asks for the missing packets, and the first one sent is written through a closed
      handle. */
  lemma EarlyEndCrashes(s: Session, io: Io, payload: seq<Byte>, io': Io)
    requires Inv(s) && s.state == InProgress && !s.crashed && s.fw.nextId == 0 && !s.handleOpen
    requires s.PacketCount() <= MAX_LOST
    requires |payload| == PACKET_LENGTH && GetU16(payload[..2]) < s.PacketCount()
    requires (GetU16(payload[..2]) + 1) * FRAME <= s.area.Available()
    ensures var asked := Step(s, Message(FwUpEnd, [], io));
            && asked.error == MissingPacketsPending
            && Step(asked.next, Message(FwUpMsg, payload, io')).next.crashed
  {
    hide Inv, Finalize, UpdateImage;
    EarlyEndAsks(s, io);
    var t := EnterRecovery(s.(fw := RecordGap(s.fw, s.PacketCount())));
    ClosedHandleCrashes(t, payload, io');
  }

  // ---- closed handles ----

  /** Whether the code would take packet `id`. */
  predicate Accepts(fw: Assembly, id: nat) {
    id == fw.nextId ||
    (if id > fw.nextId then GapFits(fw, id)
     else var k := IndexOf(fw.lost, id); k < |fw.lost| && !fw.lost[k].handled)
  }

  /** A data packet that is taken, is not the first, and has a block to write, in a session whose handle is closed. */
  predicate MeetsClosedHandle(s: Session, e: Event) {
    && s.state == InProgress && !s.crashed && !s.handleOpen && !s.fw.writing
    && (s.fw.lastId != 0 || s.fw.nextId != 0)
    && e.Message? && e.cmd == FwUpMsg && |e.payload| == PACKET_LENGTH
    && var id := GetU16(e.payload[..2]);
       && Accepts(s.fw, id)
       && id * FRAME < s.imageSize && id * FRAME + BLOCK <= s.area.Available()
  }

  /** Through a closed handle nothing was received. */
  predicate Unfed(s: Session) { s.state == InProgress && !s.handleOpen ==> s.fw.received == 0 < s.imageSize }

  /** With a closed handle the first block decides. */
  lemma ClosedBlocks(size: nat, fw: Assembly, area: Area, id: nat, data: seq<Byte>, io: Io)
    requires |data| == FRAME
    ensures var w := WriteBlocks(size, false, fw, area, id, data, 0, io);
            && (w.verdict == Crash <==> id * FRAME < size && id * FRAME + BLOCK <= area.Available())
            && w.fw == fw
  {
  }

  lemma MarkKeepsReceived(fw: Assembly, id: nat)
    ensures MarkRecovered(fw, id).received == fw.received
  {
  }

  lemma StoreMeetsHandle(s: Session, id: nat, data: seq<Byte>, first: bool, io: Io)
    requires s.state == InProgress && !s.crashed && |data| == FRAME && Unfed(s)
    ensures var t := StorePacket(s, id, data, first, io).next;
            && (t.crashed <==>
                  !s.handleOpen && !first && id * FRAME < s.imageSize && id * FRAME + BLOCK <= s.area.Available())
            && Unfed(t)
  {
    hide WriteBlocks, MarkRecovered;
    if s.handleOpen || first {
      OpenNeverCrashes(s.imageSize, BeginWrite(s.fw, id), s.area, id, data, 0, io);
    } else {
      ClosedBlocks(s.imageSize, BeginWrite(s.fw, id), s.area, id, data, io);
      MarkKeepsReceived(BeginWrite(s.fw, id).(writing := false, accepted := s.fw.accepted + {id}), id);
    }
  }

  lemma MismatchAccepts(s: Session, id: nat)
    requires s.fw.nextId != id && s.state == InProgress && !s.crashed
    ensures var o := CheckMismatch(s, id);
            && (o.ok <==> Accepts(s.fw, id))
            && (o.ok ==> o.next == s.(fw := o.next.fw) && o.next.fw.received == s.fw.received)
            && (!o.ok ==> o.next == s || (o.next.state == Error && !o.next.crashed))
  {
    hide Gap;
  }

  lemma UpdateMeetsHandle(s: Session, payload: seq<Byte>, io: Io)
    requires s.state == InProgress && !s.crashed && Unfed(s)
    ensures var t := UpdateImage(s, payload, io).next;
            (t.crashed <==> MeetsClosedHandle(s, Message(FwUpMsg, payload, io))) && Unfed(t)
  {
    hide StorePacket, CheckMismatch, GapFits, IndexOf;
    if |payload| == PACKET_LENGTH {
      var id := GetU16(payload[..2]);
      var first := s.fw.lastId == 0 && s.fw.nextId == 0;
      if s.fw.nextId == id {
        StoreMeetsHandle(s, id, payload[2..], first, io);
      } else {
        MismatchAccepts(s, id);
        var o := CheckMismatch(s, id);
        if o.ok {
          StoreMeetsHandle(o.next, id, payload[2..], first, io);
        }
      }
    }
  }

  lemma UnfedDecides(s: Session, io: Io)
    requires s.fw.received != s.imageSize
    ensures Decide(s, io) == Refuse(Abort(s), ImageIncomplete)
  {
  }

  /** The end of the image does not come to reading through a closed handle: nothing was received. */
  lemma EndMeetsHandle(s: Session, io: Io)
    requires s.state == InProgress && !s.crashed && Unfed(s)
    ensures !Finalize(s, io).next.crashed && Unfed(Finalize(s, io).next)
  {
    hide PendingIds, Gap, GapFits, PacketTotal, Decide;
    var t := if s.fw.nextId < s.PacketCount() then s.(fw := RecordGap(s.fw, s.PacketCount())) else s;
    if t.handleOpen {
      OpenDecides(t, io);
    } else {
      UnfedDecides(t, io);
    }
  }

  lemma StartUnfed(s: Session, payload: seq<Byte>, io: Io)
    requires s.state == Idle && |payload| == REQUEST_LENGTH
    ensures StartSession(s, payload, io).next.crashed == s.crashed && Unfed(StartSession(s, payload, io).next)
  {
    hide RequestSize, ReadCrc;
  }

  /** A closed handle is used exactly by such a packet, whatever came before. */
  lemma StepCrashesIff(s: Session, e: Event)
    requires Unfed(s) && !s.crashed
    ensures Step(s, e).next.crashed <==> MeetsClosedHandle(s, e)
    ensures Unfed(Step(s, e).next)
  {
    hide UpdateImage, Finalize, StartSession, Accepts, PageOf;
    if e.Message? {
      if s.state == InProgress {
        UpdateMeetsHandle(s, e.payload, e.io);
        EndMeetsHandle(s, e.io);
      } else if s.state == Idle && |e.payload| == REQUEST_LENGTH {
        StartUnfed(s, e.payload, e.io);
      }
    }
  }

  lemma RunNothing(s: Session)
    ensures Run(s, []) == s
  {
  }

  lemma CrashedStays(s: Session, e: Event)
    requires s.crashed
    ensures Step(s, e).next == s
  {
  }

  /** Over every run: a closed handle is used in it exactly when it has such a packet. */
  lemma {:induction false} RunCrashesIff(s: Session, events: seq<Event>)
    requires Unfed(s) && !s.crashed
    ensures Run(s, events).crashed <==>
              exists n :: 0 <= n < |events| && MeetsClosedHandle(Run(s, events[..n]), events[n])
    ensures Unfed(Run(s, events))
    decreases |events|
  {
    hide Step, MeetsClosedHandle, Run, Unfed;
    if events == [] {
      RunNothing(s);
    } else {
      var n := |events| - 1;
      RunCrashesIff(s, events[..n]);
      assert events[..n + 1] == events;
      RunSnoc(s, events, n);
      assert forall m :: 0 <= m <= n ==> events[..n][..m] == events[..m];
      var t := Run(s, events[..n]);
      if t.crashed {
        CrashedStays(t, events[n]);
        var m :| 0 <= m < n && MeetsClosedHandle(Run(s, events[..n][..m]), events[..n][m]);
        assert MeetsClosedHandle(Run(s, events[..m]), events[m]);
      } else {
        StepCrashesIff(t, events[n]);
        forall m | 0 <= m < n
          ensures !MeetsClosedHandle(Run(s, events[..m]), events[m])
        {
          assert events[..n][..m] == events[..m] && events[..n][m] == events[m];
        }
      }
    }
  }

  lemma NothingCovered(accepted: set<nat>, size: nat)
    ensures Covered(accepted, 0, size) == 0
  {
  }

  /** A session that is ready meets none. */
  lemma SoundIsUnfed(s: Session)
    requires Sound(s)
    ensures Unfed(s) && forall e :: !MeetsClosedHandle(s, e)
  {
    hide ImageValidated, ProgramLog, ChecksumHolds, BlankOutside, LogAccepted;
    if s.state == InProgress && !s.handleOpen {
      NothingCovered(s.fw.accepted, s.imageSize);
    }
  }
}
