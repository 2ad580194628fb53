/** What every event keeps: the bookkeeping of a session, its checksum and its use of the flash. */
module FirmwareInvariant {
  import opened Bytes
  import opened Register16
  import opened FirmwareSession
  import Crc16

  /** Image bytes that packet `id` carries. */
  function ValidLength(size: nat, id: nat): (n: nat)
    ensures n <= FRAME
  {
    if id * FRAME >= size then 0 else Min(FRAME, size - id * FRAME)
  }

  /** Image bytes carried by the accepted packets below `n`. */
  function Covered(accepted: set<nat>, n: nat, size: nat): nat {
    if n == 0 then 0
    else Covered(accepted, n - 1, size) + if n - 1 in accepted then ValidLength(size, n - 1) else 0
  }

  ghost predicate InTable(lost: seq<LostEntry>, id: nat) { exists k :: 0 <= k < |lost| && lost[k].id == id }

  function HandledCount(lost: seq<LostEntry>): nat {
    if lost == [] then 0
    else HandledCount(lost[..|lost| - 1]) + if lost[|lost| - 1].handled then 1 else 0
  }

  /** The ids below `nextId` split into accepted ones and lost ones not recovered yet. */
  ghost predicate Partition(accepted: set<nat>, lost: seq<LostEntry>, nextId: nat) {
    && (forall k :: 0 <= k < |lost| ==> lost[k].id < nextId && (lost[k].handled <==> lost[k].id in accepted))
    && (forall id :: id in accepted ==> id < nextId)
    && (forall id: nat :: id < nextId && id !in accepted ==> InTable(lost, id))
    && (forall j, k :: 0 <= j < k < |lost| ==> lost[j].id < lost[k].id)
  }

  /** Image bytes that the running checksum covers. */
  function ChecksumLength(size: nat, fw: Assembly): nat {
    Min(size, FRAME * if fw.lostActive then fw.firstLost else fw.nextId)
  }

  /** The place of packet `id` behind the write offset holds no data. */
  ghost predicate Blank(flash: seq<Byte>, id: nat) {
    forall i :: 0 <= i < |flash| && WRITE_OFFSET + id * FRAME <= i < WRITE_OFFSET + (id + 1) * FRAME ==>
        flash[i] == 0xFF
  }

  ghost predicate Bookkeeping(size: nat, fw: Assembly) {
    && fw.nextId <= MAX_PACKETS
    && !fw.writing
    && Partition(fw.accepted, fw.lost, fw.nextId)
    && |fw.lost| <= MAX_LOST
    && fw.recovered == HandledCount(fw.lost)
    && (fw.lostActive <==> fw.lost != [])
    && (fw.lostActive ==> fw.firstLost == fw.lost[0].id)
    && fw.received == Covered(fw.accepted, fw.nextId, size)
    && (fw.nextId == 0 ==> fw.lastId == 0)
  }

  ghost predicate ChecksumHolds(size: nat, fw: Assembly, flash: seq<Byte>) {
    && WRITE_OFFSET + size <= |flash|
    && fw.runningCrc == Crc16.Of(flash[WRITE_OFFSET..WRITE_OFFSET + ChecksumLength(size, fw)])
  }

  ghost predicate BlankOutside(flash: seq<Byte>, accepted: set<nat>) {
    forall id: nat :: id !in accepted ==> Blank(flash, id)
  }

  /** No block is programmed twice, and none outside the image area. */
  ghost predicate ProgramLog(area: Area) {
    && (forall i, j :: 0 <= i < j < |area.programmed| ==> area.programmed[i] != area.programmed[j])
    && (forall i :: 0 <= i < |area.programmed| ==>
          WRITE_OFFSET <= area.programmed[i] && area.programmed[i] + BLOCK <= |area.flash|)
  }

  /** Programmed blocks belong to accepted packets, or are among the first `k` of packet `id`. */
  ghost predicate LogUpTo(programmed: seq<nat>, accepted: set<nat>, id: nat, k: nat) {
    forall i :: 0 <= i < |programmed| ==>
      programmed[i] >= WRITE_OFFSET &&
      ((programmed[i] - WRITE_OFFSET) / FRAME in accepted ||
       WRITE_OFFSET + id * FRAME <= programmed[i] < WRITE_OFFSET + id * FRAME + k * BLOCK)
  }

  ghost predicate LogAccepted(programmed: seq<nat>, accepted: set<nat>) {
    forall i :: 0 <= i < |programmed| ==>
      programmed[i] >= WRITE_OFFSET && (programmed[i] - WRITE_OFFSET) / FRAME in accepted
  }

  /** A session in progress. */
  ghost predicate Live(size: nat, fw: Assembly, area: Area) {
    && 0 < size <= area.Available()
    && Bookkeeping(size, fw)
    && ChecksumHolds(size, fw, area.flash)
    && BlankOutside(area.flash, fw.accepted)
    && ProgramLog(area)
    && LogAccepted(area.programmed, fw.accepted)
  }

  /** The checksum of the image region equals the one requested. */
  ghost predicate ImageValidated(size: nat, crc: Crc, area: Area) {
    size <= area.Available() && Crc16.Of(area.flash[WRITE_OFFSET..WRITE_OFFSET + size]) == crc
  }

  ghost predicate Inv(s: Session) {
    && s.state != Completed
    && ProgramLog(s.area)
    && (s.state == InProgress && !s.crashed ==> Live(s.imageSize, s.fw, s.area))
    && (s.state == Reboot ==> !s.crashed && ImageValidated(s.imageSize, s.imageCrc, s.area))
  }

  // ---- programming one packet ----

  lemma ClearOnes(b: Byte)
    ensures Clear(b, 0xFF) == b && Clear(0xFF, b) == b
  {
  }

  /** From block `k` on, the place of packet `id` is blank. */
  ghost predicate BlankFrom(flash: seq<Byte>, id: nat, k: nat) {
    forall i :: 0 <= i < |flash| && WRITE_OFFSET + id * FRAME + k * BLOCK <= i < WRITE_OFFSET + (id + 1) * FRAME
                ==> flash[i] == 0xFF
  }

  /** `after` is `before` with bytes lo..hi of packet `id` in their place. */
  ghost predicate Written(before: seq<Byte>, after: seq<Byte>, id: nat, data: seq<Byte>, lo: nat, hi: nat)
    requires |data| == FRAME && hi <= FRAME
  {
    && |after| == |before|
    && forall i :: 0 <= i < |after| ==>
         after[i] == if WRITE_OFFSET + id * FRAME + lo <= i < WRITE_OFFSET + id * FRAME + hi
                     then data[i - WRITE_OFFSET - id * FRAME] else before[i]
  }

  /** The packet's byte count, or the start of block `k` when that is past it. */
  function End(size: nat, id: nat, k: nat): (n: nat)
    requires k <= 3
    ensures k * BLOCK <= n <= FRAME
  {
    if ValidLength(size, id) < k * BLOCK then k * BLOCK else ValidLength(size, id)
  }

  ghost predicate ReadyForBlock(size: nat, fw: Assembly, area: Area, id: nat, k: nat)
    requires k <= 3
  {
    && 0 < size <= area.Available()
    && id !in fw.accepted
    && BlankFrom(area.flash, id, k)
    && ProgramLog(area)
    && LogUpTo(area.programmed, fw.accepted, id, k)
    && fw.received + (End(size, id, k) - k * BLOCK) <= size
  }

  /** What the blocks of a packet leave behind, from block `k` on. */
  ghost predicate BlocksWritten(size: nat, fw: Assembly, area: Area, id: nat, data: seq<Byte>, k: nat, w: Blocks)
    requires |data| == FRAME && k <= 3
  {
    && ProgramLog(w.area)
    && |w.area.flash| == |area.flash|
    && (w.verdict == Stored ==>
          && w.fw == Count(fw, data[k * BLOCK..End(size, id, k)])
          && Written(area.flash, w.area.flash, id, data, k * BLOCK, End(size, id, k))
          && LogUpTo(w.area.programmed, fw.accepted, id, 3))
  }

  lemma CountNothing(fw: Assembly, chunk: seq<Byte>)
    requires chunk == []
    ensures Count(fw, chunk) == fw
  {
    Crc16.UpdateNil(fw.runningCrc);
  }

  lemma WrittenNothing(flash: seq<Byte>, id: nat, data: seq<Byte>, lo: nat)
    requires |data| == FRAME && lo <= FRAME
    ensures Written(flash, flash, id, data, lo, lo)
  {
  }

  lemma LogGrows(size: nat, fw: Assembly, area: Area, id: nat, k: nat)
    requires k < 3 && ReadyForBlock(size, fw, area, id, k) && id * FRAME + (k + 1) * BLOCK <= area.Available()
    ensures var grown := area.(programmed := area.programmed + [WRITE_OFFSET + (id * FRAME + k * BLOCK)]);
            ProgramLog(grown) && LogUpTo(grown.programmed, fw.accepted, id, k + 1)
  {
    hide BlankFrom;
    var at := WRITE_OFFSET + id * FRAME + k * BLOCK;
    assert (at - WRITE_OFFSET) / FRAME == id;
  }

  lemma LogWidens(programmed: seq<nat>, accepted: set<nat>, id: nat, k: nat)
    requires k <= 3 && LogUpTo(programmed, accepted, id, k)
    ensures LogUpTo(programmed, accepted, id, 3)
  {
  }

  /** One block: the packet's bytes up to the next block boundary, checksummed, counted and in place. */
  lemma BlockStored(size: nat, fw: Assembly, area: Area, id: nat, data: seq<Byte>, k: nat)
    requires |data| == FRAME && k < 3 && ReadyForBlock(size, fw, area, id, k)
    requires id * FRAME + k * BLOCK < size && id * FRAME + (k + 1) * BLOCK <= area.Available()
    ensures var chunk := Chunk(size, id, data, k);
            var fw', area' := Count(fw, chunk), ProgramBlock(area, id * FRAME + k * BLOCK, chunk);
            var hi := Min(ValidLength(size, id), (k + 1) * BLOCK);
            && chunk == data[k * BLOCK..hi]
            && |area'.flash| == |area.flash|
            && ReadyForBlock(size, fw', area', id, k + 1)
            && Written(area.flash, area'.flash, id, data, k * BLOCK, hi)
            && (fw'.received >= size ==> hi == ValidLength(size, id))
            && LogUpTo(area'.programmed, fw.accepted, id, k + 1)
  {
    hide Crc16.Update;
    LogGrows(size, fw, area, id, k);
    var chunk := Chunk(size, id, data, k);
    var flash := ProgramBlock(area, id * FRAME + k * BLOCK, chunk).flash;
    var at := WRITE_OFFSET + id * FRAME + k * BLOCK;
    hide Clear, LogUpTo;
    forall i | 0 <= i < |area.flash|
      ensures flash[i] == if at <= i < at + |chunk| then chunk[i - at] else area.flash[i]
    {
      ClearOnes(area.flash[i]);
      if at <= i < at + BLOCK {
        ClearOnes(Padded(chunk)[i - at]);
      }
    }
  }

  lemma BlocksCompose(size: nat, fw: Assembly, area: Area, id: nat, data: seq<Byte>, k: nat, w: Blocks)
    requires |data| == FRAME && k < 3 && id * FRAME + k * BLOCK < size &&
               id * FRAME + (k + 1) * BLOCK <= area.Available()
    requires var chunk := Chunk(size, id, data, k);
             var hi := Min(ValidLength(size, id), (k + 1) * BLOCK);
             && chunk == data[k * BLOCK..hi]
             && Written(area.flash, ProgramBlock(area, id * FRAME + k * BLOCK, chunk).flash, id, data, k * BLOCK, hi)
             && BlocksWritten(size, Count(fw, chunk), ProgramBlock(area, id * FRAME + k * BLOCK, chunk), id, data,
                              k + 1, w)
    ensures BlocksWritten(size, fw, area, id, data, k, w)
  {
    hide Crc16.Update, LogUpTo, ProgramLog, Program, Padded;
    var end := End(size, id, k + 1);
    var hi := Min(ValidLength(size, id), (k + 1) * BLOCK);
    if hi == (k + 1) * BLOCK {
      assert data[k * BLOCK..hi] + data[hi..end] == data[k * BLOCK..end];
      Crc16.UpdateConcat(fw.runningCrc, data[k * BLOCK..hi], data[hi..end]);
    } else {
      assert data[(k + 1) * BLOCK..end] == [];
      Crc16.UpdateNil(Crc16.Update(fw.runningCrc, data[k * BLOCK..hi]));
    }
  }

  lemma {:induction false} WriteBlocksEffect(
    size: nat, open: bool, fw: Assembly, area: Area, id: nat, data: seq<Byte>, k: nat, io: Io)
    requires |data| == FRAME && k <= 3 && ReadyForBlock(size, fw, area, id, k)
    ensures BlocksWritten(size, fw, area, id, data, k, WriteBlocks(size, open, fw, area, id, data, k, io))
    decreases 3 - k
  {
    hide Count, ProgramBlock, BlankFrom, Written;
    var off := id * FRAME + k * BLOCK;
    if k == 3 || off >= size {
      CountNothing(fw, data[k * BLOCK..k * BLOCK]);
      WrittenNothing(area.flash, id, data, k * BLOCK);
    } else if off + BLOCK <= area.Available() && open {
      LogGrows(size, fw, area, id, k);
      if io.failAt != k {
        hide LogUpTo;
        var chunk := Chunk(size, id, data, k);
        var fw', area' := Count(fw, chunk), ProgramBlock(area, off, chunk);
        BlockStored(size, fw, area, id, data, k);
        if fw'.received < size {
          WriteBlocksEffect(size, open, fw', area', id, data, k + 1, io);
          BlocksCompose(size, fw, area, id, data, k, WriteBlocks(size, open, fw', area', id, data, k + 1, io));
        } else {
          LogWidens(area'.programmed, fw.accepted, id, k + 1);
        }
      }
    }
  }

  // ---- counting bytes and entries ----

  lemma {:induction false} CoveredSame(a: set<nat>, b: set<nat>, n: nat, size: nat)
    requires forall i: nat :: i < n ==> (i in a <==> i in b)
    ensures Covered(a, n, size) == Covered(b, n, size)
  {
    if n == 0 {
    } else {
      CoveredSame(a, b, n - 1, size);
    }
  }

  lemma {:induction false} CoveredInsert(accepted: set<nat>, id: nat, n: nat, size: nat)
    requires id < n && id !in accepted
    ensures Covered(accepted + {id}, n, size) == Covered(accepted, n, size) + ValidLength(size, id)
  {
    if n - 1 == id {
      CoveredSame(accepted, accepted + {id}, id, size);
    } else {
      CoveredInsert(accepted, id, n - 1, size);
    }
  }

  lemma {:induction false} CoveredExtend(accepted: set<nat>, n: nat, m: nat, size: nat)
    requires n <= m && forall id :: id in accepted ==> id < n
    ensures Covered(accepted, m, size) == Covered(accepted, n, size)
    decreases m
  {
    if n == m {
    } else {
      CoveredExtend(accepted, n, m - 1, size);
    }
  }

  /** At most the whole image, and all of it below 48n exactly when no packet that carries data is missing. */
  lemma {:induction false} CoveredBound(accepted: set<nat>, n: nat, size: nat)
    ensures Covered(accepted, n, size) <= Min(size, n * FRAME)
    ensures Covered(accepted, n, size) == Min(size, n * FRAME) <==>
              forall id: nat :: id < n && id * FRAME < size ==> id in accepted
  {
    if n == 0 {
    } else {
      CoveredBound(accepted, n - 1, size);
    }
  }

  lemma {:induction false} HandleOne(lost: seq<LostEntry>, k: nat)
    requires k < |lost| && !lost[k].handled
    ensures HandledCount(lost[k := LostEntry(lost[k].id, true)]) == HandledCount(lost) + 1
  {
    var n := |lost| - 1;
    var lost' := lost[k := LostEntry(lost[k].id, true)];
    if k == n {
      assert lost'[..n] == lost[..n];
    } else {
      assert lost'[..n] == lost[..n][k := LostEntry(lost[k].id, true)];
      HandleOne(lost[..n], k);
    }
  }

  /** Every entry is either handled or pending. */
  lemma {:induction false} HandledAndPending(lost: seq<LostEntry>)
    ensures HandledCount(lost) + |PendingIds(lost)| == |lost|
  {
    if lost == [] {
    } else {
      HandledAndPending(lost[..|lost| - 1]);
    }
  }

  lemma {:induction false} GapUnhandled(lost: seq<LostEntry>, from: nat, upTo: nat)
    requires from <= upTo
    ensures HandledCount(lost + Gap(from, upTo)) == HandledCount(lost)
    decreases upTo
  {
    if from == upTo {
      assert lost + Gap(from, upTo) == lost;
    } else {
      assert (lost + Gap(from, upTo))[..|lost + Gap(from, upTo)| - 1] == lost + Gap(from, upTo - 1);
      GapUnhandled(lost, from, upTo - 1);
    }
  }

  // ---- the lost-packet table ----

  /** A recorded gap keeps the split: the new entries are exactly the ids that became missing. */
  lemma GapKeepsPartition(accepted: set<nat>, lost: seq<LostEntry>, nextId: nat, upTo: nat)
    requires Partition(accepted, lost, nextId) && nextId <= upTo
    ensures Partition(accepted, lost + Gap(nextId, upTo), upTo)
  {
    var after := lost + Gap(nextId, upTo);
    forall id: nat | id < upTo && id !in accepted
      ensures InTable(after, id)
    {
      if id < nextId {
        assert InTable(lost, id);
        var k :| 0 <= k < |lost| && lost[k].id == id;
        assert after[k].id == id;
      } else {
        assert after[|lost| + (id - nextId)].id == id;
      }
    }
  }

  lemma FirstOfBoth(lost: seq<LostEntry>, gap: seq<LostEntry>)
    requires gap != []
    ensures lost + gap != [] && (lost + gap)[0] == if lost == [] then gap[0] else lost[0]
  {
  }

  lemma CoveredExtendTo(size: nat, fw: Assembly, upTo: nat)
    requires Partition(fw.accepted, fw.lost, fw.nextId) && fw.nextId <= upTo
    ensures Covered(fw.accepted, upTo, size) == Covered(fw.accepted, fw.nextId, size)
  {
    CoveredExtend(fw.accepted, fw.nextId, upTo, size);
  }

  lemma RecordGapBooks(size: nat, fw: Assembly, upTo: nat)
    requires Bookkeeping(size, fw) && fw.nextId < upTo <= MAX_PACKETS && GapFits(fw, upTo)
    ensures Bookkeeping(size, RecordGap(fw, upTo))
  {
    hide Partition, Covered, HandledCount;
    GapKeepsPartition(fw.accepted, fw.lost, fw.nextId, upTo);
    GapUnhandled(fw.lost, fw.nextId, upTo);
    CoveredExtendTo(size, fw, upTo);
    FirstOfBoth(fw.lost, Gap(fw.nextId, upTo));
  }

  /** A gap freezes the checksum where it stands. */
  lemma RecordGapCounted(size: nat, fw: Assembly, upTo: nat)
    requires Bookkeeping(size, fw) && fw.nextId < upTo
    ensures ChecksumLength(size, RecordGap(fw, upTo)) == ChecksumLength(size, fw)
    ensures var g := RecordGap(fw, upTo);
            g.runningCrc == fw.runningCrc && g.accepted == fw.accepted
  {
    hide Partition, Covered, HandledCount, Gap;
  }

  lemma RecordGapKeeps(size: nat, fw: Assembly, area: Area, upTo: nat)
    requires Live(size, fw, area) && fw.nextId < upTo <= MAX_PACKETS && GapFits(fw, upTo)
    ensures Live(size, RecordGap(fw, upTo), area)
  {
    hide Crc16.Of, Bookkeeping, ChecksumLength, RecordGap, BlankOutside, LogAccepted, ProgramLog;
    RecordGapBooks(size, fw, upTo);
    RecordGapCounted(size, fw, upTo);
  }

  // ---- one accepted packet ----

  /** `id` is the packet expected next, or a lost one not recovered yet. */
  ghost predicate Takable(fw: Assembly, id: nat) {
    id == fw.nextId || (id < fw.nextId && IndexOf(fw.lost, id) < |fw.lost| && !fw.lost[IndexOf(fw.lost, id)].handled)
  }

  lemma TakableIsNew(fw: Assembly, id: nat)
    requires Partition(fw.accepted, fw.lost, fw.nextId) && Takable(fw, id)
    ensures id !in fw.accepted
  {
  }

  lemma AcceptedBelow(accepted: set<nat>, lost: seq<LostEntry>, nextId: nat)
    requires Partition(accepted, lost, nextId)
    ensures forall id :: id in accepted ==> id < nextId
  {
  }

  lemma PacketFits(size: nat, fw: Assembly, id: nat)
    requires Partition(fw.accepted, fw.lost, fw.nextId) && id !in fw.accepted
    requires fw.received == Covered(fw.accepted, fw.nextId, size)
    ensures fw.received + ValidLength(size, id) <= size
    ensures id < MAX_PACKETS && fw.nextId <= MAX_PACKETS ==>
              fw.received + ValidLength(size, id) == Covered(fw.accepted + {id}, BeginWrite(fw, id).nextId, size)
  {
    hide Partition;
    var n := if id >= fw.nextId then id + 1 else fw.nextId;
    AcceptedBelow(fw.accepted, fw.lost, fw.nextId);
    CoveredExtend(fw.accepted, fw.nextId, n, size);
    CoveredInsert(fw.accepted, id, n, size);
    CoveredBound(fw.accepted + {id}, n, size);
  }

  lemma EntriesFollow(accepted: set<nat>, lost: seq<LostEntry>, nextId: nat, id: nat, k: nat)
    requires Partition(accepted, lost, nextId) && k <= |lost|
    requires if k < |lost| then lost[k].id == id else forall j :: 0 <= j < |lost| ==> lost[j].id != id
    ensures var lost' := if k < |lost| then lost[k := LostEntry(id, true)] else lost;
            && (forall j :: 0 <= j < |lost'| ==>
                  lost'[j].id < nextId && (lost'[j].handled <==> lost'[j].id in accepted + {id}))
            && (forall i, j :: 0 <= i < j < |lost'| ==> lost'[i].id < lost'[j].id)
  {
  }

  lemma MissingStaysInTable(accepted: set<nat>, lost: seq<LostEntry>, lost': seq<LostEntry>, nextId: nat, id: nat)
    requires Partition(accepted, lost, nextId) && |lost'| == |lost|
    requires forall j :: 0 <= j < |lost| ==> lost'[j].id == lost[j].id
    requires id <= nextId
    ensures forall i: nat :: i < (if id == nextId then id + 1 else nextId) && i !in accepted + {id} ==>
              InTable(lost', i)
  {
    forall i: nat | i < nextId && i !in accepted
      ensures InTable(lost', i)
    {
      assert InTable(lost, i);
      var j :| 0 <= j < |lost| && lost[j].id == i;
      assert lost'[j].id == i;
    }
  }

  /** What a taken packet does to the table. */
  lemma MarkedEntry(fw: Assembly, id: nat)
    requires Takable(fw, id) && (fw.lostActive <==> fw.lost != [])
    ensures var k := IndexOf(fw.lost, id);
            MarkRecovered(fw, id).lost == if k < |fw.lost| then fw.lost[k := LostEntry(id, true)] else fw.lost
  {
  }

  lemma SplitAgain(accepted: set<nat>, lost: seq<LostEntry>, nextId: nat, more: nat)
    requires nextId <= more
    requires forall k :: 0 <= k < |lost| ==> lost[k].id < nextId && (lost[k].handled <==> lost[k].id in accepted)
    requires forall id :: id in accepted ==> id < more
    requires forall id: nat :: id < more && id !in accepted ==> InTable(lost, id)
    requires forall j, k :: 0 <= j < k < |lost| ==> lost[j].id < lost[k].id
    ensures Partition(accepted, lost, more)
  {
    hide InTable;
  }

  lemma MarkKeepsPartition(fw: Assembly, id: nat)
    requires Partition(fw.accepted, fw.lost, fw.nextId) && Takable(fw, id) && id < MAX_PACKETS
    requires fw.lostActive <==> fw.lost != []
    ensures Partition(fw.accepted + {id}, MarkRecovered(fw, id).lost, BeginWrite(fw, id).nextId)
  {
    hide Partition, InTable, MarkRecovered, IndexOf;
    var k := IndexOf(fw.lost, id);
    MarkedEntry(fw, id);
    EntriesFollow(fw.accepted, fw.lost, fw.nextId, id, k);
    MissingStaysInTable(fw.accepted, fw.lost, MarkRecovered(fw, id).lost, fw.nextId, id);
    AcceptedBelow(fw.accepted, fw.lost, fw.nextId);
    SplitAgain(fw.accepted + {id}, MarkRecovered(fw, id).lost, fw.nextId, BeginWrite(fw, id).nextId);
  }

  lemma MarkCounts(fw: Assembly, id: nat)
    requires fw.recovered == HandledCount(fw.lost)
    ensures var m := MarkRecovered(fw, id);
            m.recovered == HandledCount(m.lost) && |m.lost| == |fw.lost| &&
            (forall j :: 0 <= j < |fw.lost| ==> m.lost[j].id == fw.lost[j].id) &&
            m == fw.(lost := m.lost, recovered := m.recovered, lostDetected := m.lostDetected)
  {
    var k := IndexOf(fw.lost, id);
    if k < |fw.lost| && !fw.lost[k].handled {
      HandleOne(fw.lost, k);
    }
  }

  lemma TakableAfterFirstLost(fw: Assembly, id: nat)
    requires Partition(fw.accepted, fw.lost, fw.nextId) && Takable(fw, id)
    requires (fw.lostActive <==> fw.lost != []) && (fw.lostActive ==> fw.firstLost == fw.lost[0].id)
    ensures fw.lostActive ==> fw.firstLost <= id
    ensures !fw.lostActive ==> id == fw.nextId
  {
  }

  /** Writing a packet leaves the checksummed prefix alone, or extends it by the packet's bytes. */
  lemma ChecksumFollows(size: nat, fw: Assembly, flash: seq<Byte>, id: nat, data: seq<Byte>, fw': Assembly,
                        flash': seq<Byte>)
    requires |data| == FRAME && 0 < size && ChecksumHolds(size, fw, flash)
    requires Written(flash, flash', id, data, 0, ValidLength(size, id))
    requires fw'.lostActive == fw.lostActive && fw'.firstLost == fw.firstLost
    requires fw.lostActive ==> fw.firstLost <= id
    requires !fw.lostActive ==> id == fw.nextId && fw'.nextId == id + 1
    requires fw'.runningCrc == Count(fw, data[..ValidLength(size, id)]).runningCrc
    ensures ChecksumHolds(size, fw', flash')
  {
    hide Crc16.Update;
    var v := ValidLength(size, id);
    var n := ChecksumLength(size, fw);
    var prefix := flash[WRITE_OFFSET..WRITE_OFFSET + n];
    assert flash'[WRITE_OFFSET..WRITE_OFFSET + n] == prefix;
    if !fw.lostActive {
      assert ChecksumLength(size, fw') == n + v;
      assert flash'[WRITE_OFFSET..WRITE_OFFSET + n + v] == prefix + data[..v];
      Crc16.UpdateConcat(Crc16.INIT, prefix, data[..v]);
    }
  }

  lemma BlankElsewhere(before: seq<Byte>, after: seq<Byte>, accepted: set<nat>, id: nat, data: seq<Byte>, v: nat)
    requires |data| == FRAME && v <= FRAME && Written(before, after, id, data, 0, v)
    requires BlankOutside(before, accepted)
    ensures BlankOutside(after, accepted + {id})
  {
    forall j: nat | j !in accepted + {id}
      ensures Blank(after, j)
    {
      assert Blank(before, j);
      assert j < id || j > id;
    }
  }

  lemma LogClosed(programmed: seq<nat>, accepted: set<nat>, id: nat)
    requires LogUpTo(programmed, accepted, id, 3)
    ensures LogAccepted(programmed, accepted + {id})
  {
  }

  lemma MarkSame(a: Assembly, b: Assembly, id: nat)
    requires a.lost == b.lost && a.lostActive == b.lostActive
    ensures MarkRecovered(a, id).lost == MarkRecovered(b, id).lost
  {
  }

  lemma StartsBlank(area: Area, accepted: set<nat>, id: nat)
    requires BlankOutside(area.flash, accepted) && LogAccepted(area.programmed, accepted) && id !in accepted
    ensures BlankFrom(area.flash, id, 0) && LogUpTo(area.programmed, accepted, id, 0)
  {
    assert Blank(area.flash, id);
  }

  /** A packet that is taken and stored leaves a live session, with its id accepted. */
  lemma StoredKeepsLive(size: nat, open: bool, fw: Assembly, area: Area, id: nat, data: seq<Byte>, io: Io)
    requires Live(size, fw, area) && Takable(fw, id) && id < MAX_PACKETS && |data| == FRAME
    ensures var w := WriteBlocks(size, open, BeginWrite(fw, id), area, id, data, 0, io);
            && ProgramLog(w.area)
            && (w.verdict == Stored ==> Live(size, EndWrite(w.fw, id), w.area))
  {
    hide Crc16.Of, Crc16.Update, WriteBlocks, Partition, ProgramLog, BlankOutside, LogAccepted, LogUpTo, Written,
      ChecksumHolds, MarkRecovered, Takable, HandledCount;
    var begun := BeginWrite(fw, id);
    var w := WriteBlocks(size, open, begun, area, id, data, 0, io);
    TakableIsNew(fw, id);
    PacketFits(size, fw, id);
    StartsBlank(area, fw.accepted, id);
    WriteBlocksEffect(size, open, begun, area, id, data, 0, io);
    if w.verdict == Stored {
      var v := ValidLength(size, id);
      assert data[0..v] == data[..v];
      var done := EndWrite(w.fw, id);
      MarkKeepsPartition(fw, id);
      MarkSame(fw, w.fw.(writing := false, accepted := fw.accepted + {id}), id);
      MarkCounts(w.fw.(writing := false, accepted := fw.accepted + {id}), id);
      TakableAfterFirstLost(fw, id);
      ChecksumFollows(size, fw, area.flash, id, data, done, w.area.flash);
      BlankElsewhere(area.flash, w.area.flash, fw.accepted, id, data, v);
      LogClosed(w.area.programmed, fw.accepted, id);
    }
  }
}
