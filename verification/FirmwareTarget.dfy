/** The firmware target as the code keeps it: a management record, a fixed table of lost packets and the flash slot,
    updated in place. Every method is the `FirmwareSession` function of the same event. */
module FirmwareTarget {
  import opened Bytes
  import opened Register16
  import opened FirmwareSession
  import Crc16

  /** The counters and flags of a transfer. */
  datatype Control = Control(
    received: nat, runningCrc: Crc, nextId: nat, lastId: nat, firstLost: nat, lostActive: bool, lostDetected: bool,
    recovered: nat, writing: bool)

  const FRESH_CONTROL := Control(0, Crc16.INIT, 0, 0, 0, false, false, 0, false)

  lemma {:induction false} PendingPrefix(lost: seq<LostEntry>, n: nat)
    requires n <= |lost|
    ensures |PendingIds(lost[..n])| <= |PendingIds(lost)|
    ensures PendingIds(lost)[..|PendingIds(lost[..n])|] == PendingIds(lost[..n])
  {
    if n == |lost| {
      assert lost[..n] == lost;
    } else {
      var shorter := lost[..|lost| - 1];
      PendingPrefix(shorter, n);
      assert shorter[..n] == lost[..n];
    }
  }

  lemma AllBlocksWritten(size: nat, open: bool, fw: Assembly, area: Area, id: nat, data: seq<Byte>, io: Io)
    requires |data| == FRAME
    ensures WriteBlocks(size, open, fw, area, id, data, 3, io) == Blocks(fw, area, Stored)
  {
  }

  /** When the bytes from `from` on are read, and which they are. */
  lemma TailRead(size: nat, area: Area, from: nat, io: Io)
    requires from < size <= area.Available()
    ensures Tail(size, area, from) == area.flash[WRITE_OFFSET + from..WRITE_OFFSET + size]
    ensures TailReadable(size, area, from, io) <==> io.readFails < MAX_RETRIES
  {
  }

  lemma NothingToRead(size: nat, area: Area, from: nat, io: Io)
    ensures from == size ==> TailReadable(size, area, from, io) && Tail(size, area, from) == []
  {
  }

  lemma Unreadable(size: nat, area: Area, from: nat, io: Io)
    ensures from > size || (from < size && size > area.Available()) ==> !TailReadable(size, area, from, io)
    ensures from < size && io.readFails >= MAX_RETRIES ==> !TailReadable(size, area, from, io)
  {
  }

  class Target {
    var state: State
    var imageSize: nat
    var imageCrc: Crc
    var handleOpen: bool
    var armed: bool
    var crashed: bool
    var ctl: Control
    var lostCount: nat
    const table: array<LostEntry>
    var tx: TxLink
    const flash: array<Byte>
    ghost var accepted: set<nat>
    ghost var programmed: seq<nat>

    ghost predicate Valid()
      reads this
    {
      && table as object != flash && table.Length == MAX_LOST && lostCount <= MAX_LOST && flash.Length < 0x8000_0000
      && imageSize < 0x100_0000 && ctl.nextId < 0x1_0000 && ctl.firstLost < 0x1_0000
    }

    ghost function Fw(): Assembly
      reads this, table
      requires Valid()
    {
      Assembly(ctl.received, ctl.runningCrc, ctl.nextId, ctl.lastId, ctl.firstLost, ctl.lostActive, ctl.lostDetected,
               table[..lostCount], ctl.recovered, ctl.writing, accepted)
    }

    ghost function FlashArea(): Area
      reads this, flash
    {
      Area(flash[..], programmed)
    }

    ghost function View(): Session
      reads this, table, flash
      requires Valid()
    {
      Session(state, imageSize, imageCrc, handleOpen, armed, crashed, Fw(), tx, FlashArea())
    }

    /** Power-up: the slot holds whatever it held. */
    constructor (slot: array<Byte>)
      requires slot.Length < 0x8000_0000
      ensures Valid() && fresh(table) && flash == slot
      ensures View() == Session(Idle, 0, 0, false, false, false, FreshAssembly({}), FRESH_TX, Area(slot[..], []))
    {
      state, imageSize, imageCrc, handleOpen, armed, crashed := Idle, 0, 0, false, false, false;
      ctl, lostCount, tx := FRESH_CONTROL, 0, FRESH_TX;
      table := new LostEntry[MAX_LOST](_ => LostEntry(0, false));
      flash := slot;
      accepted, programmed := {}, [];
    }

    // ---- sessions begin and end ----

    method ResetControl()
      requires Valid()
      modifies this`ctl, this`lostCount, table
      ensures Valid() && Fw() == FreshAssembly(accepted)
    {
      ctl := FRESH_CONTROL;
      lostCount := 0;
      forall i | 0 <= i < table.Length {
        table[i] := LostEntry(0, false);
      }
      assert table[..lostCount] == [];
    }

    method ClearSessionData(next: State)
      requires Valid()
      modifies this, table
      ensures Valid() && View() == ClearSession(old(View())).(state := next)
      ensures accepted == old(accepted)
    {
      armed := false;
      if handleOpen {
        handleOpen := false;
      }
      imageSize, imageCrc := 0, 0;
      ResetControl();
      tx := FRESH_TX;
      state := next;
      assert FlashArea() == old(FlashArea());
    }

    method AbortSession()
      requires Valid()
      modifies this, table
      ensures Valid() && View() == Abort(old(View()))
    {
      ClearSessionData(Error);
    }

    method ReinitStateMachine()
      requires Valid()
      modifies this, table
      ensures Valid() && View() == Reinit(old(View()))
    {
      ClearSessionData(Idle);
    }

    /** A driver failure leaves the slot in any condition. */
    method WreckFlash(io: Io)
      requires Valid()
      modifies flash
      ensures Valid() && FlashArea() == Wreck(old(FlashArea()), io)
    {
      if |io.wreck| == flash.Length {
        forall i | 0 <= i < flash.Length {
          flash[i] := io.wreck[i];
        }
        assert flash[..] == io.wreck;
      }
    }

    method EraseFlashArea(io: Io) returns (ok: bool, err: ErrorCode)
      requires Valid()
      modifies this`handleOpen, this`accepted, this`programmed, flash
      ensures Valid() && (ok <==> io.openOk && io.eraseOk)
      ensures err == if ok then NoError else if io.openOk then FlashAreaEraseFail else FlashAreaOpenFail
      ensures handleOpen == if io.openOk then false else old(handleOpen)
      ensures accepted == if ok then {} else old(accepted)
      ensures FlashArea() == if ok then Area(Erased(flash.Length), [])
                             else if io.openOk then Wreck(old(FlashArea()), io) else old(FlashArea())
    {
      if !io.openOk {
        return false, FlashAreaOpenFail;
      }
      handleOpen := true;
      if !io.eraseOk {
        WreckFlash(io);
        handleOpen := false;
        return false, FlashAreaEraseFail;
      }
      forall i | 0 <= i < flash.Length {
        flash[i] := 0xFF;
      }
      accepted, programmed := {}, [];
      assert flash[..] == Erased(flash.Length);
      handleOpen := false;
      return true, NoError;
    }

    method EraseAndBegin(io: Io) returns (ok: bool, err: ErrorCode)
      requires Valid() && Fw() == FreshAssembly(accepted)
      modifies this, flash
      ensures Valid() && (ok <==> io.openOk && io.eraseOk)
      ensures err == if ok then NoError else if io.openOk then FlashAreaEraseFail else FlashAreaOpenFail
      ensures View() == if ok then old(View()).(area := Area(Erased(flash.Length), []), fw := FreshAssembly({}),
                                                handleOpen := false, state := InProgress, armed := true)
                        else if io.openOk then old(View()).(area := Wreck(old(FlashArea()), io), handleOpen := false)
                        else old(View())
    {
      ok, err := EraseFlashArea(io);
      if ok {
        state, armed := InProgress, true;
      }
      assert table[..lostCount] == [];
    }

    method InitForNewImage(payload: seq<Byte>, io: Io) returns (ok: bool, err: ErrorCode)
      requires Valid() && |payload| == REQUEST_LENGTH
      modifies this, table, flash
      ensures Valid()
      ensures Outcome(View(), ok, err, None) == StartSession(old(View()), payload, io)
    {
      hide RequestSize, ReadCrc;
      imageSize := RequestSize(payload);
      if imageSize == 0 {
        return false, InvalidImageSize;
      }
      if flash.Length <= WRITE_OFFSET {
        return false, FlashBoundsExceeded;
      }
      var available := flash.Length - WRITE_OFFSET;
      if imageSize > available {
        return false, ImageTooLarge;
      }
      imageCrc := ReadCrc(payload[8..10]);
      ResetControl();
      ok, err := EraseAndBegin(io);
    }

    // ---- the lost-packet table ----

    method FindEntry(id: nat) returns (i: nat)
      requires Valid()
      ensures i == IndexOf(table[..lostCount], id)
    {
      i := 0;
      while i < lostCount
        invariant 0 <= i <= lostCount
        invariant forall j :: 0 <= j < i ==> table[j].id != id
      {
        if table[i].id == id {
          break;
        }
        i := i + 1;
      }
      assert forall j :: 0 <= j < lostCount ==> table[..lostCount][j] == table[j];
    }

    /** Append the ids [nextId, upTo) to the table. */
    method AppendLost(upTo: nat)
      requires Valid() && ctl.nextId <= upTo && lostCount + (upTo - ctl.nextId) <= MAX_LOST
      modifies this`lostCount, table
      ensures Valid() && table[..lostCount] == old(table[..lostCount]) + Gap(ctl.nextId, upTo)
    {
      var diff := upTo - ctl.nextId;
      ghost var before := table[..lostCount];
      var i := 0;
      while i < diff
        invariant 0 <= i <= diff && lostCount == |before| + i && Valid()
        invariant table[..lostCount] == before + Gap(ctl.nextId, ctl.nextId + i)
      {
        ghost var filled := table[..lostCount];
        table[lostCount] := LostEntry(ctl.nextId + i, false);
        lostCount := lostCount + 1;
        i := i + 1;
        assert table[..lostCount] == filled + [LostEntry(ctl.nextId + i - 1, false)];
      }
    }

    method CanHandleMissingPackets(upTo: nat) returns (ok: bool)
      requires Valid() && ctl.nextId <= upTo < 0x1_0000
      modifies this, table
      ensures Valid() && ok == GapFits(old(Fw()), upTo)
      ensures View() == if ok then old(View()).(fw := RecordGap(old(Fw()), upTo)) else Abort(old(View()))
    {
      var diff := upTo - ctl.nextId;
      if lostCount + diff > MAX_LOST {
        AbortSession();
        return false;
      }
      AppendLost(upTo);
      if !ctl.lostActive {
        ctl := ctl.(firstLost := ctl.nextId, lostActive := true);
      }
      ctl := ctl.(nextId := ctl.nextId + diff, lostDetected := true);
      assert Fw() == RecordGap(old(Fw()), upTo);
      assert FlashArea() == old(FlashArea());
      return true;
    }

    // ---- a data packet ----

    /** Program one block: bits can only be cleared. */
    method ProgramFlash(at: nat, block: seq<Byte>)
      requires at + |block| <= flash.Length
      modifies flash
      ensures flash[..] == Program(old(flash[..]), at, block)
    {
      hide Clear;
      var i := 0;
      while i < |block|
        invariant 0 <= i <= |block|
        invariant forall j :: 0 <= j < flash.Length ==>
                    flash[j] == if at <= j < at + i then Clear(old(flash[j]), block[j - at]) else old(flash[j])
      {
        flash[at + i] := Clear(flash[at + i], block[i]);
        i := i + 1;
      }
      assert flash[..] == Program(old(flash[..]), at, block);
    }

    method StoreChunk(off: nat, chunk: seq<Byte>)
      requires Valid() && |chunk| <= BLOCK && WRITE_OFFSET + off + BLOCK <= flash.Length
      modifies this`ctl, this`programmed, flash
      ensures Valid() && Fw() == Count(old(Fw()), chunk) && FlashArea() == ProgramBlock(old(FlashArea()), off, chunk)
    {
      hide Crc16.Update, Program, Padded;
      if !ctl.lostActive {
        var crc := Crc16.UpdateLoop(ctl.runningCrc, chunk);
        ctl := ctl.(runningCrc := crc);
      }
      ProgramFlash(WRITE_OFFSET + off, Padded(chunk));
      programmed := programmed + [WRITE_OFFSET + off];
      ctl := ctl.(received := ctl.received + |chunk|);
      assert table[..lostCount] == old(table[..lostCount]);
    }

    /** One turn of the block loop. `None` goes on to the next block. */
    method WriteBlock(id: nat, data: seq<Byte>, k: nat, io: Io) returns (done: Option<Verdict>)
      requires Valid() && |data| == FRAME && k < 3
      modifies this`ctl, this`programmed, flash
      ensures Valid()
      ensures WriteBlocks(imageSize, handleOpen, old(Fw()), old(FlashArea()), id, data, k, io)
           == if done.Some? then Blocks(Fw(), FlashArea(), done.value)
              else WriteBlocks(imageSize, handleOpen, Fw(), FlashArea(), id, data, k + 1, io)
    {
      hide Count, ProgramBlock;
      var off := id * FRAME + k * BLOCK;
      if off > flash.Length - WRITE_OFFSET {
        return Some(Failed(FlashBoundsExceeded));
      }
      if off >= imageSize {
        return Some(Stored);
      }
      if off + BLOCK > flash.Length - WRITE_OFFSET {
        return Some(Failed(FlashBoundsExceeded));
      }
      if !handleOpen {
        return Some(Crash);
      }
      if io.failAt == k {
        programmed := programmed + [WRITE_OFFSET + off];
        WreckFlash(io);
        return Some(Failed(FlashAreaWriteFail));
      }
      var len := if off + BLOCK <= imageSize then BLOCK else imageSize - off;
      StoreChunk(off, data[k * BLOCK..k * BLOCK + len]);
      return if ctl.received >= imageSize then Some(Stored) else None;
    }

    /** The block loop of a data packet. */
    method WritePacketBlocks(id: nat, data: seq<Byte>, io: Io) returns (verdict: Verdict)
      requires Valid() && |data| == FRAME
      modifies this`ctl, this`programmed, flash
      ensures Valid()
      ensures Blocks(Fw(), FlashArea(), verdict)
           == WriteBlocks(imageSize, handleOpen, old(Fw()), old(FlashArea()), id, data, 0, io)
    {
      hide WriteBlocks;
      var k := 0;
      while k < 3
        invariant 0 <= k <= 3 && Valid()
        invariant WriteBlocks(imageSize, handleOpen, Fw(), FlashArea(), id, data, k, io)
               == WriteBlocks(imageSize, handleOpen, old(Fw()), old(FlashArea()), id, data, 0, io)
      {
        var done := WriteBlock(id, data, k, io);
        if done.Some? {
          return done.value;
        }
        k := k + 1;
      }
      AllBlocksWritten(imageSize, handleOpen, Fw(), FlashArea(), id, data, io);
      return Stored;
    }

    method HandleLostPacketRecovery(id: nat)
      requires Valid()
      modifies this`ctl, table
      ensures Valid() && Fw() == MarkRecovered(old(Fw()), id)
    {
      if !ctl.lostActive {
        return;
      }
      var i := FindEntry(id);
      if i == lostCount || table[i].handled {
        return;
      }
      ghost var before := table[..lostCount];
      table[i] := LostEntry(table[i].id, true);
      assert table[..lostCount] == before[i := LostEntry(id, true)];
      ctl := ctl.(recovered := ctl.recovered + 1, lostDetected := false);
    }

    method HandlePacketIdMismatch(id: nat) returns (ok: bool, err: ErrorCode)
      requires Valid() && id < 0x1_0000
      modifies this, table
      ensures Valid() && Outcome(View(), ok, err, None) == CheckMismatch(old(View()), id)
    {
      if id > ctl.nextId {
        ok := CanHandleMissingPackets(id);
        return ok, if ok then NoError else InvalidPacketId;
      }
      var i := FindEntry(id);
      if i < lostCount && !table[i].handled {
        return true, NoError;
      }
      return false, InvalidPacketId;
    }

    /** What an abort leaves does not depend on the counters it clears. */
    lemma AbortBegun(s: Session, t: Session)
      requires t == s.(fw := t.fw, handleOpen := t.handleOpen) && t.fw.accepted == s.fw.accepted
      ensures Abort(t) == Abort(s)
    {
    }

    method FinishPacket(id: nat)
      requires Valid()
      modifies this`ctl, this`accepted, this`armed, table
      ensures Valid() && View() == old(View()).(fw := EndWrite(old(Fw()), id), armed := true)
    {
      ctl := ctl.(writing := false);
      accepted := accepted + {id};
      assert Fw() == old(Fw()).(writing := false, accepted := old(accepted) + {id});
      HandleLostPacketRecovery(id);
      armed := true;
      assert FlashArea() == old(FlashArea());
    }

    /** The blocks of a packet begun; `s` is the session before it. */
    method StoreBlocks(id: nat, data: seq<Byte>, io: Io, ghost s: Session) returns (ok: bool, err: ErrorCode)
      requires Valid() && |data| == FRAME && id < 0x1_0000
      requires View() == s.(fw := BeginWrite(s.fw, id), handleOpen := handleOpen)
      modifies this, table, flash
      ensures Valid()
      ensures Outcome(View(), ok, err, None) ==
              (var w := WriteBlocks(s.imageSize, old(handleOpen), BeginWrite(s.fw, id), s.area, id, data, 0, io);
               match w.verdict
               case Failed(e) => Refuse(Abort(s.(area := w.area)), e)
               case Crash => Accept(s.(area := w.area, fw := w.fw, handleOpen := old(handleOpen), crashed := true))
               case Stored =>
                 Accept(s.(area := w.area, fw := EndWrite(w.fw, id), handleOpen := old(handleOpen), armed := true)))
    {
      hide WriteBlocks, EndWrite, Abort;
      var verdict := WritePacketBlocks(id, data, io);
      match verdict {
        case Failed(e) =>
          AbortBegun(s.(area := FlashArea()), View());
          AbortSession();
          return false, e;
        case Crash =>
          crashed := true;
          return true, NoError;
        case Stored =>
          FinishPacket(id);
          return true, NoError;
      }
    }

    method BeginPacket(id: nat)
      requires Valid() && id < 0x1_0000
      modifies this`ctl
      ensures Valid() && View() == old(View()).(fw := BeginWrite(old(Fw()), id))
    {
      ctl := ctl.(writing := true, lastId := id);
      if id >= ctl.nextId {
        ctl := ctl.(nextId := (id + 1) % 0x1_0000);
      }
    }

    method TakePacket(id: nat, data: seq<Byte>, first: bool, io: Io) returns (ok: bool, err: ErrorCode)
      requires Valid() && |data| == FRAME && id < 0x1_0000
      modifies this, table, flash
      ensures Valid() && Outcome(View(), ok, err, None) == StorePacket(old(View()), id, data, first, io)
    {
      hide WriteBlocks, EndWrite, Abort;
      BeginPacket(id);
      if first {
        if !io.openOk {
          AbortBegun(old(View()), View());
          AbortSession();
          return false, FlashAreaOpenFail;
        }
        handleOpen := true;
      }
      ok, err := StoreBlocks(id, data, io, old(View()));
    }

    method UpdateFwImage(payload: seq<Byte>, io: Io) returns (ok: bool, err: ErrorCode)
      requires Valid()
      modifies this, table, flash
      ensures Valid() && Outcome(View(), ok, err, None) == UpdateImage(old(View()), payload, io)
    {
      if |payload| != PACKET_LENGTH {
        return false, InvalidPayloadLength;
      }
      if ctl.writing {
        return false, UpdateInProgress;
      }
      if flash.Length <= WRITE_OFFSET {
        AbortSession();
        return false, FlashBoundsExceeded;
      }
      var id := GetU16(payload[..2]);
      var first := ctl.lastId == 0 && ctl.nextId == 0;
      if ctl.nextId != id {
        ok, err := HandlePacketIdMismatch(id);
        if !ok {
          return;
        }
      }
      ok, err := TakePacket(id, payload[2..], first, io);
    }

    // ---- the end of the image ----

    method GetPendingLostPacketCount() returns (count: nat)
      requires Valid()
      ensures count == |PendingIds(table[..lostCount])|
    {
      count := 0;
      var i := 0;
      while i < lostCount
        invariant 0 <= i <= lostCount && count == |PendingIds(table[..i])|
      {
        assert table[..i + 1][..i] == table[..i];
        if !table[i].handled {
          count := count + 1;
        }
        i := i + 1;
      }
    }

    /** Fold the slot bytes [offset, offset + valid) into a checksum that covers those from `start` on. */
    method FoldChunk(ghost initial: Crc, ghost start: nat, offset: nat, valid: nat)
      requires Valid() && start <= offset && offset + valid <= flash.Length
      requires ctl.runningCrc == Crc16.Update(initial, flash[start..offset])
      modifies this`ctl
      ensures Valid() && ctl == old(ctl).(runningCrc := Crc16.Update(initial, flash[start..offset + valid]))
    {
      hide Crc16.Update;
      assert flash[start..offset] + flash[offset..offset + valid] == flash[start..offset + valid];
      Crc16.UpdateConcat(initial, flash[start..offset], flash[offset..offset + valid]);
      var crc := Crc16.UpdateLoop(ctl.runningCrc, flash[offset..offset + valid]);
      ctl := ctl.(runningCrc := crc);
    }

    /** Read the image from the first lost packet on and fold it into the checksum, retrying failed reads. */
    method FinishChecksum(io: Io) returns (readable: bool)
      requires Valid() && !crashed
      modifies this`ctl, this`crashed
      ensures Valid()
      ensures var from := FRAME * ctl.firstLost;
              && crashed == (from != imageSize && !handleOpen) && (crashed ==> ctl == old(ctl))
              && (!crashed ==> readable == TailReadable(imageSize, FlashArea(), from, io))
              && (!crashed && readable ==>
                    ctl.runningCrc == Crc16.Update(old(ctl.runningCrc), Tail(imageSize, FlashArea(), from)))
              && ctl == old(ctl).(runningCrc := ctl.runningCrc)
    {
      hide Crc16.Update, Tail, TailReadable;
      var from := FRAME * ctl.firstLost;
      Unreadable(imageSize, FlashArea(), from, io);
      var start := WRITE_OFFSET + from;
      var offset := start;
      var remaining := (imageSize - from) % 0x1_0000_0000;
      var failing, attempts := io.readFails, 0;
      Crc16.UpdateNil(ctl.runningCrc);
      assert start <= flash.Length ==> flash[start..start] == [];
      while remaining > 0
        invariant remaining >= 0 && start <= offset
        invariant offset + remaining == WRITE_OFFSET + imageSize + if from > imageSize then 0x1_0000_0000 else 0
        invariant offset == start || (offset <= flash.Length && failing == 0 && handleOpen)
        invariant !crashed && Valid() && attempts < MAX_RETRIES
        invariant ctl == old(ctl).(runningCrc := ctl.runningCrc)
        invariant offset <= flash.Length ==> ctl.runningCrc == Crc16.Update(old(ctl.runningCrc), flash[start..offset])
        invariant offset == start ==> ctl == old(ctl)
        invariant from <= imageSize <= flash.Length - WRITE_OFFSET ==> attempts + failing == io.readFails
        decreases remaining, MAX_RETRIES - attempts
      {
        if !handleOpen {
          crashed := true;
          return false;
        }
        var valid := if remaining >= FRAME then FRAME else remaining;
        if failing > 0 || offset + valid > flash.Length {
          attempts := attempts + 1;
          failing := if failing > 0 then failing - 1 else 0;
          if attempts >= MAX_RETRIES {
            return false;
          }
        } else {
          FoldChunk(old(ctl.runningCrc), start, offset, valid);
          offset := offset + valid;
          remaining := remaining - valid;
        }
      }
      NothingToRead(imageSize, FlashArea(), from, io);
      if offset != start {
        TailRead(imageSize, FlashArea(), from, io);
      }
      return true;
    }

    method RequestMcubootUpgrade(io: Io) returns (ok: bool, err: ErrorCode)
      requires Valid()
      modifies this, table
      ensures Valid()
      ensures Outcome(View(), ok, err, None)
           == if io.upgradeFails >= MAX_RETRIES then Refuse(Abort(old(View())), UpgradeRequestFail)
              else Accept(old(View()).(state := Reboot, armed := true))
    {
      var tries := 0;
      while tries < MAX_RETRIES
        invariant 0 <= tries <= MAX_RETRIES && tries <= io.upgradeFails
      {
        if tries >= io.upgradeFails {
          break;
        }
        tries := tries + 1;
      }
      if tries >= MAX_RETRIES {
        AbortSession();
        return false, UpgradeRequestFail;
      }
      state, armed := Reboot, true;
      return true, NoError;
    }

    lemma AbortIgnores(s: Session, t: Session)
      requires s == t.(state := s.state)
      ensures Abort(s) == Abort(t)
    {
    }

    method ExecuteCompleted(io: Io) returns (ok: bool, err: ErrorCode)
      requires Valid()
      modifies this, table
      ensures Valid() && Outcome(View(), ok, err, None) == Complete(old(View()), io)
    {
      hide Abort;
      AbortIgnores(View(), View().(state := Completed));
      state, armed := Completed, false;
      handleOpen := false;
      AbortIgnores(View(), old(View()).(handleOpen := false, armed := false));
      ok, err := RequestMcubootUpgrade(io);
    }

    lemma AbortCounters(s: Session, t: Session)
      requires s == t.(fw := s.fw) && s.fw.accepted == t.fw.accepted
      ensures Abort(s) == Abort(t)
    {
    }

    method ValidateCrcFromFlash(io: Io) returns (ok: bool, err: ErrorCode)
      requires Valid() && !crashed && ctl.lostActive
      modifies this, table
      ensures Valid() && Outcome(View(), ok, err, None) == ValidateFromFlash(old(View()), io)
    {
      hide Abort, Crc16.Update, Complete, Tail, TailReadable;
      if ctl.recovered < lostCount {
        AbortSession();
        return false, UndefinedBehavior;
      }
      var readable := FinishChecksum(io);
      if crashed {
        return true, NoError;
      }
      if !readable {
        AbortCounters(View(), old(View()));
        AbortSession();
        return false, FlashAreaReadFail;
      }
      var matches := ctl.runningCrc == imageCrc;
      ctl := ctl.(lostActive := false);
      if !matches {
        AbortSession();
        return false, CrcMismatch;
      }
      ok, err := ExecuteCompleted(io);
    }

    method DecideImage(io: Io) returns (ok: bool, err: ErrorCode)
      requires Valid() && !crashed
      modifies this, table
      ensures Valid() && Outcome(View(), ok, err, None) == Decide(old(View()), io)
    {
      hide Abort, Complete, ValidateFromFlash;
      if ctl.received != imageSize {
        AbortSession();
        return false, ImageIncomplete;
      }
      if ctl.lostActive {
        ok, err := ValidateCrcFromFlash(io);
        return;
      }
      if ctl.runningCrc != imageCrc {
        AbortSession();
        return false, CrcMismatch;
      }
      ok, err := ExecuteCompleted(io);
    }

    method FinalizeFwImageWrite(io: Io) returns (ok: bool, err: ErrorCode)
      requires Valid() && !crashed
      modifies this, table
      ensures Valid() && Outcome(View(), ok, err, None) == Finalize(old(View()), io)
    {
      hide Abort, Decide, Gap, PendingIds, Crc16.Update;
      var count := (imageSize + FRAME - 1) / FRAME;
      if count > MAX_PACKETS {
        AbortSession();
        return false, ImageTooLarge;
      }
      if ctl.nextId < count {
        var recorded := CanHandleMissingPackets(count);
        if !recorded {
          return false, InvalidPacketId;
        }
      }
      if ctl.lostActive {
        var pending := GetPendingLostPacketCount();
        if pending > 0 {
          tx, armed := FRESH_TX, true;
          return false, MissingPacketsPending;
        }
      }
      ok, err := DecideImage(io);
    }

    // ---- lost-packet info ----

    /** The pending ids that fit in one frame of 64 bytes, of which four are the header. */
    method CollectPage() returns (ids: seq<nat>)
      requires Valid()
      ensures ids == PendingIds(table[..lostCount])[..Min(PAGE_IDS, |PendingIds(table[..lostCount])|)]
    {
      ids := [];
      var count, index := 0, 4;
      while count < lostCount && index + 1 < 64
        invariant 0 <= count <= lostCount && index == 4 + 2 * |ids| && index <= 64
        invariant ids == PendingIds(table[..count])
      {
        assert table[..count + 1][..count] == table[..count];
        if table[count].handled {
          count := count + 1;
          continue;
        }
        ids := ids + [table[count].id];
        index := index + 2;
        count := count + 1;
      }
      PendingPrefix(table[..lostCount], count);
      assert table[..lostCount][..count] == table[..count];
    }

    method GetLostPacketInfo(io: Io) returns (ok: bool, err: ErrorCode, page: Option<Page>)
      requires Valid()
      modifies this`tx, this`armed
      ensures Valid() && Outcome(View(), ok, err, page) == SendLostInfo(old(View()), io)
    {
      if tx.state != TxIdle {
        return false, UpgradeRequestFail, None;
      }
      var pending := GetPendingLostPacketCount();
      var ids := CollectPage();
      var frame := Page(pending, tx.frameSeq, ids);
      if !io.sendOk {
        tx := TxLink(TxRetry, tx.frameSeq, tx.retries + 1, Some(frame));
        armed := true;
        return true, NoError, None;
      }
      tx := TxLink(TxInProgress, (tx.frameSeq + 1) % 256, tx.retries, Some(frame));
      armed := true;
      return true, NoError, Some(frame);
    }

    method ProcessTxError()
      requires Valid()
      modifies this, table
      ensures Valid() && View() == GiveUpTx(old(View()))
    {
      if state == InProgress {
        AbortSession();
      }
    }

    method ProcessRetryTx(io: Io) returns (page: Option<Page>)
      requires Valid()
      modifies this, table
      ensures Valid() && Outcome(View(), true, NoError, page) == Resend(old(View()), io)
    {
      if tx.retries >= MAX_RETRIES {
        ProcessTxError();
        return None;
      }
      page := if io.sendOk then tx.sent else None;
      tx := tx.(state := TxRetry, retries := tx.retries + 1);
      if state == InProgress {
        armed := true;
      }
    }

    method HandleLostPacketInfoTxResponse(status: nat, seqNo: nat, io: Io) returns (page: Option<Page>)
      requires Valid()
      modifies this, table
      ensures Valid() && Outcome(View(), true, NoError, page) == HandleHostAck(old(View()), status, seqNo, io)
    {
      hide Resend;
      page := None;
      if status < ACK || status > NACK || tx.sent == None || tx.state == TxIdle || tx.sent.value.seqNo != seqNo {
        return;
      }
      if status == ACK {
        tx := tx.(state := TxIdle, retries := 0);
      } else {
        tx := tx.(state := TxRetry);
        page := ProcessRetryTx(io);
      }
    }

    method TxTimeOutHandler(io: Io) returns (page: Option<Page>)
      requires Valid()
      modifies this, table
      ensures Valid() && Outcome(View(), true, NoError, page) == HandleTxTimeout(old(View()), io)
    {
      hide Resend, GiveUpTx;
      page := None;
      if tx.state == TxIdle {
        return;
      }
      if tx.retries >= MAX_RETRIES {
        ProcessTxError();
        return;
      }
      tx := tx.(state := TxRetry);
      page := ProcessRetryTx(io);
    }

    method StateTimeOutHandler()
      requires Valid()
      modifies this, table
      ensures Valid() && View() == HandleStateTimeout(old(View()))
    {
      if !armed {
        return;
      }
      armed := false;
      if state == Reboot {
        return;
      }
      AbortSession();
    }

    // ---- one event ----

    method UpdateBootloader(cmd: Command, payload: seq<Byte>, io: Io)
      returns (ok: bool, err: ErrorCode, page: Option<Page>)
      requires Valid() && !crashed
      modifies this, table, flash
      ensures Valid() && Outcome(View(), ok, err, page) == Dispatch(old(View()), cmd, payload, io)
    {
      hide StartSession, Finalize, UpdateImage, SendLostInfo, Abort, Reinit;
      page := None;
      match state {
        case Idle =>
          if |payload| != REQUEST_LENGTH {
            return false, InvalidPayloadLength, None;
          }
          if cmd == FwUpReq || cmd == NoCommand {
            ok, err := InitForNewImage(payload, io);
          } else {
            ok, err := false, InvalidCommand;
          }
        case InProgress =>
          match cmd {
            case FwUpStop =>
              AbortSession();
              ok, err := true, NoError;
            case FwUpEnd =>
              ok, err := FinalizeFwImageWrite(io);
            case FwUpMsg =>
              ok, err := UpdateFwImage(payload, io);
            case GetLostPacketInfo =>
              ok, err, page := GetLostPacketInfo(io);
            case _ =>
              ok, err := false, InvalidCommand;
          }
        case Completed =>
          ok, err := true, NoError;
        case Reboot =>
          armed := false;
          ok, err := true, NoError;
        case Error =>
          if cmd == RecoverFromError {
            ReinitStateMachine();
            ok, err := true, NoError;
          } else {
            ok, err := false, InvalidCommand;
          }
      }
    }

    /** Whatever the target meets next. */
    method Handle(e: Event) returns (ok: bool, err: ErrorCode, page: Option<Page>)
      requires Valid()
      modifies this, table, flash
      ensures Valid() && Outcome(View(), ok, err, page) == Step(old(View()), e)
    {
      hide Dispatch, HandleHostAck, HandleStateTimeout, HandleTxTimeout;
      ok, err, page := true, NoError, None;
      if crashed {
        return;
      }
      match e {
        case Message(cmd, payload, io) =>
          ok, err, page := UpdateBootloader(cmd, payload, io);
        case HostAck(status, seqNo, io) =>
          page := HandleLostPacketInfoTxResponse(status, seqNo, io);
        case StateTimeout =>
          StateTimeOutHandler();
        case TxTimeout(io) =>
          page := TxTimeOutHandler(io);
      }
    }
  }
}
