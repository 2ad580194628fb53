/** What one event does to the firmware target: its management record, the image area of its flash
    and the flash handle, as a value. `FirmwareTarget` is the code that does it in place. */
module FirmwareSession {
  import opened Bytes
  import opened Register16
  import Crc16

  const WRITE_OFFSET: nat := 0x2000
  const FRAME: nat := 48
  const BLOCK: nat := 16
  const REQUEST_LENGTH: nat := 10
  const PACKET_LENGTH: nat := 50
  const MAX_LOST: nat := 100
  const PAGE_IDS: nat := 30
  const MAX_RETRIES: nat := 3
  const MAX_PACKETS: nat := 0xFFFF
  const ACK: nat := 10
  const NACK: nat := 11

  datatype State = Idle | InProgress | Completed | Reboot | Error

  datatype Command =
    | FwUpReq | FwUpMsg | FwUpEnd | FwUpPause | FwUpStop | GetLostPacketInfo | RecoverFromError | NoCommand

  datatype ErrorCode =
    | NoError | UpdateInProgress | InvalidCommand | InvalidPayloadLength | InvalidImageSize | ImageTooLarge
    | ImageIncomplete | CrcMismatch | InvalidPacketId | FlashAreaOpenFail | FlashAreaEraseFail
    | FlashAreaWriteFail | FlashAreaReadFail | FlashBoundsExceeded | UpgradeRequestFail
    | MissingPacketsPending | UndefinedBehavior

  datatype TxState = TxIdle | TxInProgress | TxRetry

  datatype LostEntry = LostEntry(id: nat, handled: bool)

  /** A lost-packet-info frame: how many ids are pending, the frame's sequence number, and some of the ids. */
  datatype Page = Page(pending: nat, seqNo: nat, ids: seq<nat>)

  /** What the drivers do during one event: the block of a packet at which programming fails (3 or more:
      none), how often reads and upgrade requests fail, and what a failed erase or program leaves behind. */
  datatype Io = Io(openOk: bool, eraseOk: bool, failAt: nat, readFails: nat, upgradeFails: nat, sendOk: bool,
                   wreck: seq<Byte>)

  datatype Event =
    | Message(cmd: Command, payload: seq<Byte>, io: Io)
    | HostAck(status: nat, seqNo: nat, io: Io)
    | StateTimeout
    | TxTimeout(io: Io)

  /** Packets needed for an image of `size` bytes. */
  function PacketTotal(size: nat): nat { (size + FRAME - 1) / FRAME }

  /** The reassembly record. `accepted` is history: the ids taken since the last erase. */
  datatype Assembly = Assembly(
    received: nat, runningCrc: Crc, nextId: nat, lastId: nat, firstLost: nat, lostActive: bool, lostDetected: bool,
    lost: seq<LostEntry>, recovered: nat, writing: bool, accepted: set<nat>)

  /** The exchange of lost-packet-info frames with the host. */
  datatype TxLink = TxLink(state: TxState, frameSeq: nat, retries: nat, sent: Option<Page>)

  /** The flash slot. `programmed` is history: the start of every block programmed since the last erase. */
  datatype Area = Area(flash: seq<Byte>, programmed: seq<nat>)
  {
    /** Bytes of the slot that lie behind the write offset. */
    function Available(): int { |flash| - WRITE_OFFSET }
  }

  /** `crashed` records a flash access through a closed handle. */
  datatype Session = Session(state: State, imageSize: nat, imageCrc: Crc, handleOpen: bool, armed: bool, crashed: bool,
                             fw: Assembly, tx: TxLink, area: Area)
  {
    function PacketCount(): nat { PacketTotal(imageSize) }
  }

  datatype Outcome = Outcome(next: Session, ok: bool, error: ErrorCode, page: Option<Page>)

  function Accept(s: Session): Outcome { Outcome(s, true, NoError, None) }

  function Refuse(s: Session, e: ErrorCode): Outcome { Outcome(s, false, e, None) }

  // ---- sessions begin and end ----

  const FRESH_TX := TxLink(TxIdle, 0, 0, None)

  function FreshAssembly(accepted: set<nat>): Assembly {
    Assembly(0, Crc16.INIT, 0, 0, 0, false, false, [], 0, false, accepted)
  }

  function ClearSession(s: Session): Session {
    s.(imageSize := 0, imageCrc := 0, fw := FreshAssembly(s.fw.accepted), tx := FRESH_TX, armed := false,
       handleOpen := false)
  }

  function Abort(s: Session): Session { ClearSession(s).(state := Error) }

  function Reinit(s: Session): Session { ClearSession(s).(state := Idle) }

  function Wreck(area: Area, io: Io): Area {
    if |io.wreck| == |area.flash| then area.(flash := io.wreck) else area
  }

  function Erased(n: nat): (f: seq<Byte>)
    ensures |f| == n && forall i :: 0 <= i < n ==> f[i] == 0xFF
  {
    seq(n, i => 0xFF)
  }

  /** The 24-bit image size of an update request. */
  function RequestSize(payload: seq<Byte>): (n: nat)
    requires |payload| == REQUEST_LENGTH
    ensures n < 0x100_0000
  {
    payload[0] as nat * 0x1_0000 + payload[1] as nat * 0x100 + payload[2] as nat
  }

  function ReadCrc(b: seq<Byte>): Crc
    requires |b| == 2
  {
    Xor(Crc16.Top(b[0]), b[1] as Crc)
  }

  function StartSession(s: Session, payload: seq<Byte>, io: Io): Outcome
    requires |payload| == REQUEST_LENGTH
  {
    var size := RequestSize(payload);
    var t := s.(imageSize := size);
    if size == 0 then Refuse(t, InvalidImageSize)
    else if s.area.Available() <= 0 then Refuse(t, FlashBoundsExceeded)
    else if size > s.area.Available() then Refuse(t, ImageTooLarge)
    else
      var u := t.(imageCrc := ReadCrc(payload[8..10]), fw := FreshAssembly(s.fw.accepted));
      if !io.openOk then Refuse(u, FlashAreaOpenFail)
      else if !io.eraseOk then Refuse(u.(area := Wreck(u.area, io), handleOpen := false), FlashAreaEraseFail)
      else Accept(u.(area := Area(Erased(|u.area.flash|), []), fw := FreshAssembly({}), handleOpen := false,
                     state := InProgress, armed := true))
  }

  // ---- the lost-packet table ----

  /** The position of the first entry for `id`, or the length of the table. */
  function IndexOf(lost: seq<LostEntry>, id: nat): (k: nat)
    ensures k <= |lost| && (k < |lost| ==> lost[k].id == id)
    ensures forall j :: 0 <= j < k ==> lost[j].id != id
  {
    if lost == [] then 0
    else
      var k := IndexOf(lost[..|lost| - 1], id);
      if k < |lost| - 1 then k else if lost[|lost| - 1].id == id then |lost| - 1 else |lost|
  }

  /** The ids of the entries not handled yet, in table order. */
  function PendingIds(lost: seq<LostEntry>): (p: seq<nat>)
    ensures |p| <= |lost|
  {
    if lost == [] then []
    else
      var e := lost[|lost| - 1];
      PendingIds(lost[..|lost| - 1]) + if e.handled then [] else [e.id]
  }

  function Gap(from: nat, upTo: nat): (g: seq<LostEntry>)
    requires from <= upTo
    ensures |g| == upTo - from && forall i :: 0 <= i < |g| ==> g[i] == LostEntry(from + i, false)
  {
    seq(upTo - from, i requires 0 <= i => LostEntry(from + i, false))
  }

  /** Whether the ids [nextId, upTo) still fit in the table. */
  predicate GapFits(fw: Assembly, upTo: nat)
    requires fw.nextId <= upTo
  {
    |fw.lost| + (upTo - fw.nextId) <= MAX_LOST
  }

  /** Note the ids [nextId, upTo) as lost. */
  function RecordGap(fw: Assembly, upTo: nat): Assembly
    requires fw.nextId <= upTo
  {
    fw.(lost := fw.lost + Gap(fw.nextId, upTo), firstLost := if fw.lostActive then fw.firstLost else fw.nextId,
        lostActive := true, nextId := upTo, lostDetected := true)
  }

  function MarkRecovered(fw: Assembly, id: nat): Assembly {
    var k := IndexOf(fw.lost, id);
    if !fw.lostActive || k == |fw.lost| || fw.lost[k].handled then fw
    else fw.(lost := fw.lost[k := LostEntry(id, true)], recovered := fw.recovered + 1, lostDetected := false)
  }

  // ---- a data packet ----

  /** Programming can only clear bits. */
  function Clear(cell: Byte, value: Byte): Byte { cell & value }

  function Program(flash: seq<Byte>, at: nat, block: seq<Byte>): (f: seq<Byte>)
    requires at + |block| <= |flash|
    ensures |f| == |flash|
    ensures forall i :: 0 <= i < |f| ==>
              f[i] == if at <= i < at + |block| then Clear(flash[i], block[i - at]) else flash[i]
  {
    seq(|flash|, i requires 0 <= i < |flash| =>
      if at <= i < at + |block| then Clear(flash[i], block[i - at]) else flash[i])
  }

  function Padded(data: seq<Byte>): (b: seq<Byte>)
    requires |data| <= BLOCK
    ensures |b| == BLOCK
    ensures forall i :: 0 <= i < BLOCK ==> b[i] == if i < |data| then data[i] else 0xFF
  {
    data + Erased(BLOCK - |data|)
  }

  /** The image bytes in block `k` of packet `id`. */
  function Chunk(size: nat, id: nat, data: seq<Byte>, k: nat): (c: seq<Byte>)
    requires |data| == FRAME && k < 3 && id * FRAME + k * BLOCK < size
    ensures 0 < |c| <= BLOCK
  {
    data[k * BLOCK..k * BLOCK + Min(BLOCK, size - id * FRAME - k * BLOCK)]
  }

  /** The checksum stops growing once a packet is missing. */
  function Count(fw: Assembly, chunk: seq<Byte>): Assembly {
    fw.(runningCrc := if fw.lostActive then fw.runningCrc else Crc16.Update(fw.runningCrc, chunk),
        received := fw.received + |chunk|)
  }

  function ProgramBlock(area: Area, off: nat, chunk: seq<Byte>): Area
    requires |chunk| <= BLOCK && off + BLOCK <= area.Available()
  {
    Area(Program(area.flash, WRITE_OFFSET + off, Padded(chunk)), area.programmed + [WRITE_OFFSET + off])
  }

  datatype Verdict = Stored | Crash | Failed(error: ErrorCode)

  datatype Blocks = Blocks(fw: Assembly, area: Area, verdict: Verdict)

  /** Write block `k` of packet `id` and those after it. */
  function WriteBlocks(
    size: nat, open: bool, fw: Assembly, area: Area, id: nat, data: seq<Byte>, k: nat, io: Io): Blocks
    requires |data| == FRAME && k <= 3
    decreases 3 - k
  {
    var off := id * FRAME + k * BLOCK;
    if k == 3 then Blocks(fw, area, Stored)
    else if off > area.Available() then Blocks(fw, area, Failed(FlashBoundsExceeded))
    else if off >= size then Blocks(fw, area, Stored)
    else if off + BLOCK > area.Available() then Blocks(fw, area, Failed(FlashBoundsExceeded))
    else if !open then Blocks(fw, area, Crash)
    else if io.failAt == k then
      Blocks(fw, Wreck(area.(programmed := area.programmed + [WRITE_OFFSET + off]), io), Failed(FlashAreaWriteFail))
    else
      var chunk := Chunk(size, id, data, k);
      var fw', area' := Count(fw, chunk), ProgramBlock(area, off, chunk);
      if fw'.received >= size then Blocks(fw', area', Stored)
      else WriteBlocks(size, open, fw', area', id, data, k + 1, io)
  }

  /** May the packet `id`, which is not the one expected next, be taken? */
  function CheckMismatch(s: Session, id: nat): Outcome {
    if id > s.fw.nextId then
      if GapFits(s.fw, id) then Accept(s.(fw := RecordGap(s.fw, id))) else Refuse(Abort(s), InvalidPacketId)
    else
      var k := IndexOf(s.fw.lost, id);
      if k < |s.fw.lost| && !s.fw.lost[k].handled then Accept(s) else Refuse(s, InvalidPacketId)
  }

  /** The record while packet `id` is being written. The id after 0xFFFF is 0. */
  function BeginWrite(fw: Assembly, id: nat): Assembly {
    fw.(writing := true, lastId := id, nextId := if id >= fw.nextId then (id + 1) % 0x1_0000 else fw.nextId)
  }

  function EndWrite(fw: Assembly, id: nat): Assembly {
    MarkRecovered(fw.(writing := false, accepted := fw.accepted + {id}), id)
  }

  function StorePacket(s: Session, id: nat, data: seq<Byte>, first: bool, io: Io): Outcome
    requires |data| == FRAME
  {
    if first && !io.openOk then Refuse(Abort(s), FlashAreaOpenFail)
    else
      var open := s.handleOpen || first;
      var w := WriteBlocks(s.imageSize, open, BeginWrite(s.fw, id), s.area, id, data, 0, io);
      match w.verdict
      case Failed(e) => Refuse(Abort(s.(area := w.area)), e)
      case Crash => Accept(s.(area := w.area, fw := w.fw, handleOpen := open, crashed := true))
      case Stored => Accept(s.(area := w.area, fw := EndWrite(w.fw, id), handleOpen := open, armed := true))
  }

  function UpdateImage(s: Session, payload: seq<Byte>, io: Io): Outcome {
    if |payload| != PACKET_LENGTH then Refuse(s, InvalidPayloadLength)
    else if s.fw.writing then Refuse(s, UpdateInProgress)
    else if s.area.Available() <= 0 then Refuse(Abort(s), FlashBoundsExceeded)
    else
      var id := GetU16(payload[..2]);
      var first := s.fw.lastId == 0 && s.fw.nextId == 0;
      var checked := if s.fw.nextId == id then Accept(s) else CheckMismatch(s, id);
      if !checked.ok then checked else StorePacket(checked.next, id, payload[2..], first, io)
  }

  // ---- the end of the image ----

  function EnterRecovery(s: Session): Session { s.(tx := FRESH_TX, armed := true) }

  function Complete(s: Session, io: Io): Outcome {
    var t := s.(handleOpen := false, armed := false);
    if io.upgradeFails >= MAX_RETRIES then Refuse(Abort(t), UpgradeRequestFail)
    else Accept(t.(state := Reboot, armed := true))
  }

  /** Whether reading the image from byte `from` on succeeds. The byte count is a 32-bit difference: past the end of
      the image it wraps, and the read runs into the end of the slot. */
  predicate TailReadable(size: nat, area: Area, from: nat, io: Io) {
    from == size || (from < size <= area.Available() && io.readFails < MAX_RETRIES)
  }

  function Tail(size: nat, area: Area, from: nat): seq<Byte> {
    if from < size <= area.Available() then area.flash[WRITE_OFFSET + from..WRITE_OFFSET + size] else []
  }

  /** Finish the frozen checksum over the image bytes from the first lost packet on, as flash has them. */
  function ValidateFromFlash(s: Session, io: Io): Outcome {
    var from := FRAME * s.fw.firstLost;
    if s.fw.recovered < |s.fw.lost| then Refuse(Abort(s), UndefinedBehavior)
    else if from != s.imageSize && !s.handleOpen then Accept(s.(crashed := true))
    else if !TailReadable(s.imageSize, s.area, from, io) then Refuse(Abort(s), FlashAreaReadFail)
    else
      var t := s.(fw := s.fw.(runningCrc := Crc16.Update(s.fw.runningCrc, Tail(s.imageSize, s.area, from)),
                              lostActive := false));
      if t.fw.runningCrc != t.imageCrc then Refuse(Abort(t), CrcMismatch) else Complete(t, io)
  }

  /** With nothing pending, what FWUpEnd decides. */
  function Decide(s: Session, io: Io): Outcome {
    if s.fw.received != s.imageSize then Refuse(Abort(s), ImageIncomplete)
    else if s.fw.lostActive then ValidateFromFlash(s, io)
    else if s.fw.runningCrc != s.imageCrc then Refuse(Abort(s), CrcMismatch)
    else Complete(s, io)
  }

  function Finalize(s: Session, io: Io): Outcome {
    if s.PacketCount() > MAX_PACKETS then Refuse(Abort(s), ImageTooLarge)
    else if s.fw.nextId < s.PacketCount() && !GapFits(s.fw, s.PacketCount()) then Refuse(Abort(s), InvalidPacketId)
    else
      var t := if s.fw.nextId < s.PacketCount() then s.(fw := RecordGap(s.fw, s.PacketCount())) else s;
      if t.fw.lostActive && PendingIds(t.fw.lost) != [] then Refuse(EnterRecovery(t), MissingPacketsPending)
      else Decide(t, io)
  }

  // ---- lost-packet info ----

  function PageOf(s: Session): (p: Page)
    ensures |p.ids| <= PAGE_IDS
  {
    var ids := PendingIds(s.fw.lost);
    Page(|ids|, s.tx.frameSeq, ids[..Min(PAGE_IDS, |ids|)])
  }

  function SendLostInfo(s: Session, io: Io): Outcome {
    if s.tx.state != TxIdle then Refuse(s, UpgradeRequestFail)
    else
      var page := PageOf(s);
      if io.sendOk then
        Outcome(s.(tx := TxLink(TxInProgress, (s.tx.frameSeq + 1) % 256, s.tx.retries, Some(page)), armed := true),
                true, NoError, Some(page))
      else Accept(s.(tx := TxLink(TxRetry, s.tx.frameSeq, s.tx.retries + 1, Some(page)), armed := true))
  }

  function GiveUpTx(s: Session): Session { if s.state == InProgress then Abort(s) else s }

  /** Send the stored frame once more. */
  function Resend(s: Session, io: Io): Outcome {
    if s.tx.retries >= MAX_RETRIES then Accept(GiveUpTx(s))
    else
      Outcome(s.(tx := s.tx.(state := TxRetry, retries := s.tx.retries + 1), armed := s.armed || s.state == InProgress),
              true, NoError, if io.sendOk then s.tx.sent else None)
  }

  function HandleHostAck(s: Session, status: nat, seqNo: nat, io: Io): Outcome {
    if status != ACK && status != NACK then Accept(s)
    else if s.tx.sent == None || s.tx.state == TxIdle || s.tx.sent.value.seqNo != seqNo then Accept(s)
    else if status == ACK then Accept(s.(tx := s.tx.(state := TxIdle, retries := 0)))
    else Resend(s.(tx := s.tx.(state := TxRetry)), io)
  }

  function HandleTxTimeout(s: Session, io: Io): Outcome {
    if s.tx.state == TxIdle then Accept(s)
    else if s.tx.retries >= MAX_RETRIES then Accept(GiveUpTx(s))
    else Resend(s.(tx := s.tx.(state := TxRetry)), io)
  }

  /** A deadline that passed: in Reboot the system restarts, elsewhere the session ends. */
  function HandleStateTimeout(s: Session): Session {
    if !s.armed then s else if s.state == Reboot then s.(armed := false) else Abort(s)
  }

  // ---- one event ----

  function Dispatch(s: Session, cmd: Command, payload: seq<Byte>, io: Io): Outcome {
    match s.state
    case Idle =>
      if |payload| != REQUEST_LENGTH then Refuse(s, InvalidPayloadLength)
      else if cmd == FwUpReq || cmd == NoCommand then StartSession(s, payload, io)
      else Refuse(s, InvalidCommand)
    case InProgress =>
      (match cmd
       case FwUpStop => Accept(Abort(s))
       case FwUpEnd => Finalize(s, io)
       case FwUpMsg => UpdateImage(s, payload, io)
       case GetLostPacketInfo => SendLostInfo(s, io)
       case _ => Refuse(s, InvalidCommand))
    case Completed => Accept(s)
    case Reboot => Accept(s.(armed := false))
    case Error => if cmd == RecoverFromError then Accept(Reinit(s)) else Refuse(s, InvalidCommand)
  }

  function Step(s: Session, e: Event): Outcome {
    if s.crashed then Accept(s)
    else
      match e
      case Message(cmd, payload, io) => Dispatch(s, cmd, payload, io)
      case HostAck(status, seqNo, io) => HandleHostAck(s, status, seqNo, io)
      case StateTimeout => Accept(HandleStateTimeout(s))
      case TxTimeout(io) => HandleTxTimeout(s, io)
  }

  /** A whole run, in which each event meets the state the one before it left. */
  function Run(s: Session, events: seq<Event>): Session
    decreases |events|
  {
    if events == [] then s else Step(Run(s, events[..|events| - 1]), events[|events| - 1]).next
  }
}
