/** How a session advances when drivers and links work: what the host's recovery loop can count on. */
module FirmwareRecovery {
  import opened Bytes
  import opened Register16
  import opened FirmwareSession
  import opened FirmwareInvariant
  import opened FirmwareSafety
  import opened FirmwareImage
  import opened FirmwareIntegrity
  import Crc16

  /** Drivers that never fail. */
  const GOOD := Io(true, true, 3, 0, 0, true, [])

  /** The slot has room for the image in whole 16-byte blocks. */
  ghost predicate Roomy(image: seq<Byte>, area: Area) {
    (|image| + BLOCK - 1) / BLOCK * BLOCK <= area.Available()
  }

  /** A session of `image` in progress, with no lost-packet frame on the way. */
  ghost predicate Serving(image: seq<Byte>, s: Session) {
    && 0 < |image| <= MAX_IMAGE && PacketTotal(|image|) <= MAX_PACKETS
    && Faithful(image, s) && HandleReady(s) && s.state == InProgress && !s.crashed
    && s.imageCrc == Crc16.Of(image) && s.tx.state == TxIdle && s.tx.retries == 0 && s.tx.frameSeq < 256 &&
       Roomy(image, s.area)
    && s.fw.nextId <= PacketTotal(|image|)
  }

  // ---- storing a packet ----

  lemma BlockSizes(fw: Assembly, area: Area, off: nat, chunk: seq<Byte>)
    requires |chunk| <= BLOCK && off + BLOCK <= area.Available()
    ensures |ProgramBlock(area, off, chunk).flash| == |area.flash|
    ensures Count(fw, chunk) == fw.(runningCrc := Count(fw, chunk).runningCrc, received := Count(fw, chunk).received)
  {
    hide Crc16.Update;
  }

  /** A block that begins inside the image ends inside the image rounded up to whole blocks. */
  lemma WholeBlock(n: nat, size: nat)
    requires n * BLOCK < size
    ensures (n + 1) * BLOCK <= (size + BLOCK - 1) / BLOCK * BLOCK
  {
  }

  lemma {:induction false} BlocksStore(size: nat, fw: Assembly, area: Area, id: nat, data: seq<Byte>, k: nat)
    requires |data| == FRAME && k <= 3 && (size + BLOCK - 1) / BLOCK * BLOCK <= area.Available()
    requires id * FRAME + k * BLOCK <= (size + BLOCK - 1) / BLOCK * BLOCK
    ensures var w := WriteBlocks(size, true, fw, area, id, data, k, GOOD);
            && w.verdict == Stored && |w.area.flash| == |area.flash|
            && w.fw == fw.(runningCrc := w.fw.runningCrc, received := w.fw.received)
    decreases 3 - k
  {
    hide Count, ProgramBlock, Chunk;
    var off := id * FRAME + k * BLOCK;
    if k == 3 || off >= size {
    } else {
      WholeBlock(3 * id + k, size);
      var chunk := Chunk(size, id, data, k);
      BlockSizes(fw, area, off, chunk);
      BlocksStore(size, Count(fw, chunk), ProgramBlock(area, off, chunk), id, data, k + 1);
    }
  }

  /** What a stored packet does to the record. */
  ghost predicate Took(s: Session, fw: Assembly, id: nat, t: Session) {
    && t == s.(fw := t.fw, area := t.area, handleOpen := true, armed := true)
    && t.fw.lost == MarkRecovered(fw, id).lost
    && t.fw.nextId == BeginWrite(fw, id).nextId
    && t.fw.accepted == fw.accepted + {id}
    && t.fw.lostActive == fw.lostActive
  }

  lemma RoomyForBlocks(image: seq<Byte>, area: Area)
    requires Roomy(image, area)
    ensures (|image| + BLOCK - 1) / BLOCK * BLOCK <= area.Available()
  {
  }

  lemma RoomySame(image: seq<Byte>, a: Area, b: Area)
    requires Roomy(image, a) && |a.flash| == |b.flash|
    ensures Roomy(image, b)
  {
  }

  lemma GapFields(fw: Assembly, id: nat)
    requires fw.nextId <= id
    ensures RecordGap(fw, id).nextId == id && RecordGap(fw, id).accepted == fw.accepted
  {
  }

  lemma MarkSimilar(a: Assembly, b: Assembly, id: nat)
    requires a.lost == b.lost && a.lostActive == b.lostActive
    ensures var m, n := MarkRecovered(a, id), MarkRecovered(b, id);
            m.lost == n.lost && n == b.(lost := n.lost, recovered := n.recovered, lostDetected := n.lostDetected)
  {
  }

  lemma TakePacket(image: seq<Byte>, s: Session, fw: Assembly, id: nat)
    requires Serving(image, s) && id < PacketTotal(|image|)
    requires fw == if id > s.fw.nextId && GapFits(s.fw, id) then RecordGap(s.fw, id) else s.fw
    requires Takable(fw, id)
    ensures var o := UpdateImage(s, PacketPayload(image, id), GOOD);
            o.ok && Took(s, fw, id, o.next) && Serving(image, o.next)
  {
    hide Crc16.Update, Crc16.Of, WriteBlocks, Inv, Content, InFlash, MarkRecovered, ImageValidated, Roomy, RecordGap;
    PayloadReadsBack(image, id);
    LiveStart(s);
    RoomyForBlocks(image, s.area);
    BlocksStore(|image|, BeginWrite(fw, id), s.area, id, PacketData(image, id), 0);
    var w := WriteBlocks(|image|, true, BeginWrite(fw, id), s.area, id, PacketData(image, id), 0, GOOD);
    MarkSimilar(fw, w.fw.(writing := false, accepted := fw.accepted + {id}), id);
    PacketFaithful(image, s, id, GOOD);
    PacketUsesHandle(s, PacketPayload(image, id), GOOD);
    if id > s.fw.nextId {
      GapFields(s.fw, id);
    }
    assert Took(s, fw, id, UpdateImage(s, PacketPayload(image, id), GOOD).next);
    RoomySame(image, s.area, UpdateImage(s, PacketPayload(image, id), GOOD).next.area);
  }

  lemma FaithfulLive(image: seq<Byte>, s: Session)
    requires Serving(image, s)
    ensures Live(|image|, s.fw, s.area) && !s.fw.writing && s.area.Available() > 0 && s.imageSize == |image|
    ensures Content(image, s.area.flash, s.fw.accepted)
  {
  }

  // ---- the pending list ----

  lemma {:induction false} PendingConcat(a: seq<LostEntry>, b: seq<LostEntry>)
    ensures PendingIds(a + b) == PendingIds(a) + PendingIds(b)
  {
    if b == [] {
      assert a + b == a;
    } else {
      assert (a + b)[..|a + b| - 1] == a + b[..|b| - 1];
      PendingConcat(a, b[..|b| - 1]);
    }
  }

  /** An id is pending exactly when it has an entry that is not handled. */
  lemma {:induction false} PendingMembers(lost: seq<LostEntry>, id: nat)
    ensures id in PendingIds(lost) <==> exists k :: 0 <= k < |lost| && lost[k] == LostEntry(id, false)
  {
    if lost == [] {
    } else {
      var n := |lost| - 1;
      PendingMembers(lost[..n], id);
      if id in PendingIds(lost[..n]) {
        var k :| 0 <= k < n && lost[..n][k] == LostEntry(id, false);
        assert lost[k] == LostEntry(id, false);
      }
      assert lost[n] == LostEntry(id, false) ==> id in PendingIds(lost);
      assert forall k :: 0 <= k < n ==> lost[..n][k] == lost[k];
    }
  }

  lemma PendingOne(e: LostEntry)
    ensures PendingIds([e]) == if e.handled then [] else [e.id]
  {
    assert [e][..0] == [];
    assert PendingIds([]) == [];
  }

  /** Handling the first pending id leaves the others, in order. */
  lemma {:induction false} HandleFirst(lost: seq<LostEntry>, k: nat)
    requires k < |lost| && !lost[k].handled && PendingIds(lost) != [] && PendingIds(lost)[0] == lost[k].id
    requires forall i, j :: 0 <= i < j < |lost| ==> lost[i].id < lost[j].id
    ensures PendingIds(lost[k := LostEntry(lost[k].id, true)]) == PendingIds(lost)[1..]
  {
    hide PendingIds;
    var e := lost[k];
    var before, after := lost[..k], lost[k + 1..];
    assert lost == before + [e] + after;
    assert lost[k := LostEntry(e.id, true)] == before + [LostEntry(e.id, true)] + after;
    PendingConcat(before + [e], after);
    PendingConcat(before, [e]);
    PendingConcat(before + [LostEntry(e.id, true)], after);
    PendingConcat(before, [LostEntry(e.id, true)]);
    PendingOne(e);
    PendingOne(LostEntry(e.id, true));
    if PendingIds(before) != [] {
      PendingMembers(before, e.id);
    }
  }

  lemma EntryIsFirst(accepted: set<nat>, lost: seq<LostEntry>, nextId: nat, k: nat)
    requires Partition(accepted, lost, nextId) && k < |lost|
    ensures IndexOf(lost, lost[k].id) == k && lost[k].id < nextId
    ensures forall i, j :: 0 <= i < j < |lost| ==> lost[i].id < lost[j].id
  {
  }

  lemma SomePending(lost: seq<LostEntry>)
    ensures PendingIds(lost) != [] ==> lost != []
  {
  }

  /** The first pending id is that of a lost packet; its entry handled leaves the others. */
  lemma FirstEntry(fw: Assembly)
    requires Partition(fw.accepted, fw.lost, fw.nextId) && PendingIds(fw.lost) != [] && fw.lostActive
    ensures var id := PendingIds(fw.lost)[0];
            && Takable(fw, id) && id < fw.nextId && BeginWrite(fw, id).nextId == fw.nextId
            && PendingIds(MarkRecovered(fw, id).lost) == PendingIds(fw.lost)[1..]
            && |MarkRecovered(fw, id).lost| == |fw.lost|
  {
    hide PendingIds;
    var id := PendingIds(fw.lost)[0];
    PendingMembers(fw.lost, id);
    var k :| 0 <= k < |fw.lost| && fw.lost[k] == LostEntry(id, false);
    EntryIsFirst(fw.accepted, fw.lost, fw.nextId, k);
    HandleFirst(fw.lost, k);
  }

  /** Resending the first pending packet recovers it, and it alone. */
  lemma ResendFirst(image: seq<Byte>, s: Session)
    requires Serving(image, s) && PendingIds(s.fw.lost) != []
    ensures var id := PendingIds(s.fw.lost)[0];
            && id < PacketTotal(|image|)
            && var o := Step(s, Message(FwUpMsg, PacketPayload(image, id), GOOD));
               && o.ok && Serving(image, o.next) && o.next.fw.nextId == s.fw.nextId
               && PendingIds(o.next.fw.lost) == PendingIds(s.fw.lost)[1..] && |o.next.fw.lost| == |s.fw.lost|
  {
    hide UpdateImage, Faithful, Roomy, Crc16.Of, ProgramLog, BlankOutside, LogAccepted, ChecksumHolds, Partition,
      Takable, MarkRecovered, BeginWrite, PendingIds;
    var id := PendingIds(s.fw.lost)[0];
    SomePending(s.fw.lost);
    FaithfulLive(image, s);
    FirstEntry(s.fw);
    TakePacket(image, s, s.fw, id);
  }

  // ---- any packet of the image ----

  lemma LiveTable(image: seq<Byte>, s: Session)
    requires Serving(image, s)
    ensures |s.fw.lost| <= MAX_LOST
  {
    FaithfulLive(image, s);
  }

  lemma TooManyLost(image: seq<Byte>, s: Session, id: nat)
    requires Serving(image, s) && s.fw.nextId <= id < PacketTotal(|image|) && !GapFits(s.fw, id)
    ensures UpdateImage(s, PacketPayload(image, id), GOOD) == Refuse(Abort(s), InvalidPacketId)
  {
    hide Crc16.Of, Faithful, Roomy, StorePacket, Live;
    PayloadReadsBack(image, id);
    FaithfulLive(image, s);
    LiveTable(image, s);
  }

  lemma SmallId(image: seq<Byte>, s: Session, id: nat)
    requires Serving(image, s) && id < PacketTotal(|image|)
    ensures id < MAX_PACKETS
  {
  }

  lemma NextAfterGap(was: Assembly, fw: Assembly, id: nat)
    requires was.nextId <= id && fw == if id > was.nextId then RecordGap(was, id) else was
    ensures Takable(fw, id) && fw.nextId == id && |fw.lost| == |was.lost| + (id - was.nextId) &&
              fw.accepted == was.accepted
  {
  }

  lemma TookNew(s: Session, fw: Assembly, id: nat, t: Session)
    requires Took(s, fw, id, t) && MarkRecovered(fw, id) == fw && fw.nextId == id < MAX_PACKETS
    ensures t.fw.nextId == id + 1 && t.fw.lost == fw.lost && t.fw.accepted == fw.accepted + {id}
  {
  }

  lemma NewIdNotInTable(image: seq<Byte>, s: Session, id: nat)
    requires Serving(image, s) && s.fw.nextId <= id < PacketTotal(|image|) && GapFits(s.fw, id)
    ensures var fw := if id > s.fw.nextId then RecordGap(s.fw, id) else s.fw;
            MarkRecovered(fw, id) == fw
  {
    hide Crc16.Of, Content, InFlash, ImageValidated, ProgramLog, BlankOutside, LogAccepted, ChecksumHolds, Roomy;
    var fw := if id > s.fw.nextId then RecordGap(s.fw, id) else s.fw;
    assert forall k :: 0 <= k < |fw.lost| ==> fw.lost[k].id < id;
  }

  /** A packet not sent before: the ids it skips are noted as lost. */
  lemma NewIdTaken(image: seq<Byte>, s: Session, id: nat)
    requires Serving(image, s) && s.fw.nextId <= id < PacketTotal(|image|) && GapFits(s.fw, id)
    ensures var o := UpdateImage(s, PacketPayload(image, id), GOOD);
            && o.ok && Serving(image, o.next) && o.next.fw.nextId == id + 1
            && o.next.fw.accepted == s.fw.accepted + {id}
            && |o.next.fw.lost| == |s.fw.lost| + (id - s.fw.nextId)
  {
    hide UpdateImage, Serving, MarkRecovered, RecordGap, Took;
    SmallId(image, s, id);
    var fw := if id > s.fw.nextId then RecordGap(s.fw, id) else s.fw;
    NewIdNotInTable(image, s, id);
    NextAfterGap(s.fw, fw, id);
    TakePacket(image, s, fw, id);
    TookNew(s, fw, id, UpdateImage(s, PacketPayload(image, id), GOOD).next);
  }

  lemma PendingIff(accepted: set<nat>, lost: seq<LostEntry>, nextId: nat, id: nat)
    requires Partition(accepted, lost, nextId) && id < nextId
    ensures IndexOf(lost, id) < |lost| && !lost[IndexOf(lost, id)].handled <==> id !in accepted
  {
    if id !in accepted {
      assert InTable(lost, id);
    }
  }

  lemma OldIdPending(image: seq<Byte>, s: Session, id: nat)
    requires Serving(image, s) && id < s.fw.nextId
    ensures Takable(s.fw, id) <==> id !in s.fw.accepted
  {
    FaithfulLive(image, s);
    PendingIff(s.fw.accepted, s.fw.lost, s.fw.nextId, id);
  }

  lemma MarkKeepsLength(fw: Assembly, id: nat)
    ensures |MarkRecovered(fw, id).lost| == |fw.lost|
  {
  }

  lemma DuplicateRefused(image: seq<Byte>, s: Session, id: nat)
    requires Serving(image, s) && id < s.fw.nextId && id < PacketTotal(|image|) && !Takable(s.fw, id)
    ensures UpdateImage(s, PacketPayload(image, id), GOOD) == Refuse(s, InvalidPacketId)
  {
    hide Crc16.Of, Faithful, Roomy, StorePacket, Live;
    PayloadReadsBack(image, id);
    FaithfulLive(image, s);
  }

  /** An old packet is taken if it was lost, and refused without effect if it was accepted. */
  lemma OldId(image: seq<Byte>, s: Session, id: nat)
    requires Serving(image, s) && id < s.fw.nextId && id < PacketTotal(|image|)
    ensures var o := UpdateImage(s, PacketPayload(image, id), GOOD);
            && (o.ok <==> id !in s.fw.accepted) && Serving(image, o.next) && o.next.fw.nextId == s.fw.nextId
            && o.next.fw.accepted == s.fw.accepted + {id} && |o.next.fw.lost| == |s.fw.lost|
  {
    hide UpdateImage, Serving, MarkRecovered, RecordGap;
    OldIdPending(image, s, id);
    if id in s.fw.accepted {
      DuplicateRefused(image, s, id);
      assert s.fw.accepted + {id} == s.fw.accepted;
    } else {
      TakePacket(image, s, s.fw, id);
      MarkKeepsLength(s.fw, id);
    }
  }

  /** Whether a packet that arrives skips more ids than the table has room for. */
  predicate SkipsTooMany(fw: Assembly, id: nat) { id > fw.nextId && !GapFits(fw, id) }

  lemma AcceptedBelow(image: seq<Byte>, s: Session)
    requires Serving(image, s)
    ensures forall id :: id in s.fw.accepted ==> id < s.fw.nextId
  {
    FaithfulLive(image, s);
  }

  /** Any packet of the image, whether it is new, late or sent again: the session goes on with the packet accepted,
      unless it skips more ids than fit in the lost table. */
  lemma Deliver(image: seq<Byte>, s: Session, id: nat)
    requires Serving(image, s) && id < PacketTotal(|image|)
    ensures var o := Step(s, Message(FwUpMsg, PacketPayload(image, id), GOOD));
            if SkipsTooMany(s.fw, id) then !o.ok && o.next.state == Error && !o.next.crashed
            else
              && (o.ok <==> id !in s.fw.accepted) && Serving(image, o.next)
              && o.next.fw.accepted == s.fw.accepted + {id}
              && o.next.fw.nextId == (if id < s.fw.nextId then s.fw.nextId else id + 1)
              && |o.next.fw.lost| == |s.fw.lost| + if id < s.fw.nextId then 0 else id - s.fw.nextId
  {
    hide UpdateImage, Faithful, Roomy, Crc16.Of;
    FaithfulLive(image, s);
    LiveTable(image, s);
    if id < s.fw.nextId {
      OldId(image, s, id);
    } else if GapFits(s.fw, id) {
      NewIdTaken(image, s, id);
      AcceptedBelow(image, s);
    } else {
      TooManyLost(image, s, id);
    }
  }

  // ---- in order, from the request on ----

  lemma RoomyFits(image: seq<Byte>, area: Area)
    requires Roomy(image, area)
    ensures |image| <= area.Available()
    ensures Roomy(image, Area(Erased(|area.flash|), []))
  {
  }

  lemma StartsServing(image: seq<Byte>, s: Session)
    requires s.state == Idle && !s.crashed && s.tx == FRESH_TX && ProgramLog(s.area)
    requires 0 < |image| <= MAX_IMAGE && PacketTotal(|image|) <= MAX_PACKETS && Roomy(image, s.area)
    ensures var t := Step(s, Message(FwUpReq, UpdateRequest(image), GOOD)).next;
            Serving(image, t) && t.fw.nextId == 0 && t.fw.lost == [] && t.fw.accepted == {}
  {
    hide RequestSize, ReadCrc, UpdateRequest, Live, Content, ProgramLog, InFlash, Crc16.Of;
    RequestReadsBack(image);
    StartsFaithful(image, s);
    StartFaithful(image, s, GOOD);
    RoomyFits(image, s.area);
  }

  /** The request, and the first `n` packets in order. */
  function InOrder(image: seq<Byte>, n: nat): seq<Event>
    requires 0 < |image| <= MAX_IMAGE && n <= PacketTotal(|image|)
  {
    if n == 0 then [Message(FwUpReq, UpdateRequest(image), GOOD)]
    else InOrder(image, n - 1) + [Message(FwUpMsg, PacketPayload(image, n - 1), GOOD)]
  }

  lemma InOrderUnfolds(image: seq<Byte>, n: nat)
    requires 0 < |image| <= MAX_IMAGE && n <= PacketTotal(|image|)
    ensures var events := InOrder(image, n);
            && events != []
            && events[|events| - 1] == (if n == 0 then Message(FwUpReq, UpdateRequest(image), GOOD)
                                        else Message(FwUpMsg, PacketPayload(image, n - 1), GOOD))
            && events[..|events| - 1] == if n == 0 then [] else InOrder(image, n - 1)
  {
  }

  lemma {:induction false} InOrderServes(image: seq<Byte>, s: Session, n: nat)
    requires s.state == Idle && !s.crashed && s.tx == FRESH_TX && ProgramLog(s.area)
    requires 0 < |image| <= MAX_IMAGE && n <= PacketTotal(|image|) <= MAX_PACKETS && Roomy(image, s.area)
    ensures var t := Run(s, InOrder(image, n));
            Serving(image, t) && t.fw.nextId == n && |t.fw.lost| == 0
  {
    hide Serving, Step, Roomy, ProgramLog, UpdateRequest, PacketPayload, Run, InOrder;
    InOrderUnfolds(image, n);
    RunEnds(s, InOrder(image, n));
    if n == 0 {
      RunNothing(s);
      StartsServing(image, s);
    } else {
      InOrderServes(image, s, n - 1);
      Deliver(image, Run(s, InOrder(image, n - 1)), n - 1);
    }
  }

  lemma ServingInv(image: seq<Byte>, s: Session)
    requires Serving(image, s)
    ensures Inv(s) && s.state == InProgress && !s.crashed && s.imageSize == |image| <= s.area.Available()
  {
  }

  /** A slot that does have room for packet 0xFFFF: after the 65535 packets of an image of full length, a packet
      with that id is stored and the invariant is gone. */
  lemma WrapIsReached(image: seq<Byte>, s: Session, payload: seq<Byte>)
    requires s.state == Idle && !s.crashed && s.tx == FRESH_TX && ProgramLog(s.area)
    requires |image| == MAX_PACKETS * FRAME && !SmallSlot(s.area)
    requires |payload| == PACKET_LENGTH && GetU16(payload[..2]) == MAX_PACKETS
    ensures Inv(s) && !Inv(Run(s, InOrder(image, MAX_PACKETS) + [Message(FwUpMsg, payload, GOOD)]))
  {
    hide Step, InOrder, ProgramLog, Live, Serving, GetU16;
    var e := Message(FwUpMsg, payload, GOOD);
    var events := InOrder(image, MAX_PACKETS);
    InOrderServes(image, s, MAX_PACKETS);
    assert (events + [e])[..|events|] == events;
    var t := Run(s, events);
    ServingInv(image, t);
    StepKeepsInv(t, e);
  }

  // ---- what is missing ----

  /** The ids below `n` that were not accepted, in ascending order. */
  function Missing(accepted: set<nat>, n: nat): (m: seq<nat>)
    ensures |m| <= n
  {
    if n == 0 then [] else Missing(accepted, n - 1) + if n - 1 in accepted then [] else [n - 1]
  }

  /** Partition without the bound on accepted ids. */
  ghost predicate Splits(accepted: set<nat>, lost: seq<LostEntry>, n: nat) {
    && (forall k :: 0 <= k < |lost| ==> lost[k].id < n && (lost[k].handled <==> lost[k].id in accepted))
    && (forall id: nat :: id < n && id !in accepted ==> InTable(lost, id))
    && (forall j, k :: 0 <= j < k < |lost| ==> lost[j].id < lost[k].id)
  }

  lemma NoEntries(accepted: set<nat>, lost: seq<LostEntry>)
    requires Splits(accepted, lost, 0)
    ensures lost == [] && PendingIds(lost) == [] == Missing(accepted, 0)
  {
    assert lost == [] || lost[0].id < 0;
  }

  lemma MissingUnfolds(accepted: set<nat>, n: nat)
    requires n > 0
    ensures Missing(accepted, n) == Missing(accepted, n - 1) + if n - 1 in accepted then [] else [n - 1]
    ensures Missing(accepted, n - 1) + [] == Missing(accepted, n - 1)
  {
  }

  lemma PendingUnfolds(lost: seq<LostEntry>)
    ensures lost != [] ==>
              var e := lost[|lost| - 1];
              PendingIds(lost) == PendingIds(lost[..|lost| - 1]) + if e.handled then [] else [e.id]
  {
  }

  /** The entries below the id `n - 1`. */
  function Below(lost: seq<LostEntry>, n: nat): seq<LostEntry> {
    if lost != [] && lost[|lost| - 1].id + 1 == n then lost[..|lost| - 1] else lost
  }

  /** Without the largest id: its entry is the last, if it has one. */
  lemma SplitsShrink(accepted: set<nat>, lost: seq<LostEntry>, n: nat)
    requires Splits(accepted, lost, n) && n > 0
    ensures Splits(accepted, Below(lost, n), n - 1)
    ensures if lost != [] && lost[|lost| - 1].id == n - 1 then
              Splits(accepted, lost[..|lost| - 1], n - 1) && (lost[|lost| - 1].handled <==> n - 1 in accepted)
            else Splits(accepted, lost, n - 1) && n - 1 in accepted
  {
    if lost != [] && lost[|lost| - 1].id == n - 1 {
      var rest := lost[..|lost| - 1];
      forall id: nat | id < n - 1 && id !in accepted
        ensures InTable(rest, id)
      {
        assert InTable(lost, id);
        var k :| 0 <= k < |lost| && lost[k].id == id;
        assert rest[k].id == id;
      }
    } else {
      assert forall k :: 0 <= k < |lost| ==> lost[k].id <= lost[|lost| - 1].id;
    }
  }

  lemma PendingStep(accepted: set<nat>, lost: seq<LostEntry>, n: nat)
    requires Splits(accepted, lost, n) && n > 0 && PendingIds(Below(lost, n)) == Missing(accepted, n - 1)
    ensures PendingIds(lost) == Missing(accepted, n)
  {
    hide Splits, Missing, PendingIds;
    SplitsShrink(accepted, lost, n);
    MissingUnfolds(accepted, n);
    PendingUnfolds(lost);
  }

  /** The pending entries are exactly the ids that were not accepted. */
  lemma {:induction false} PendingIsMissing(accepted: set<nat>, lost: seq<LostEntry>, n: nat)
    requires Splits(accepted, lost, n)
    ensures PendingIds(lost) == Missing(accepted, n)
    decreases n
  {
    hide *;
    if n == 0 {
      NoEntries(accepted, lost);
    } else {
      SplitsShrink(accepted, lost, n);
      PendingIsMissing(accepted, Below(lost, n), n - 1);
      PendingStep(accepted, lost, n);
    }
  }

  lemma EndsInTable(image: seq<Byte>, s: Session)
    requires Serving(image, s)
    requires s.fw.nextId < PacketTotal(|image|) ==> GapFits(s.fw, PacketTotal(|image|))
    ensures Live(|image|, AtEnd(s), s.area)
    ensures AtEnd(s).nextId == PacketTotal(|image|) && AtEnd(s).accepted == s.fw.accepted
  {
    hide Live, Faithful, Roomy, Crc16.Of, Gap;
    FaithfulLive(image, s);
    AtEndKeeps(s);
  }

  lemma BooksSplit(image: seq<Byte>, s: Session)
    requires Live(|image|, AtEnd(s), s.area)
    ensures Splits(AtEnd(s).accepted, AtEnd(s).lost, AtEnd(s).nextId)
  {
    hide AtEnd, ChecksumHolds, BlankOutside, LogAccepted, ProgramLog, Covered, HandledCount, InTable;
  }

  /** What FWUpEnd finds missing is every packet of the image that was not accepted. */
  lemma MissingIsUnaccepted(image: seq<Byte>, s: Session)
    requires Serving(image, s)
    requires s.fw.nextId < PacketTotal(|image|) ==> GapFits(s.fw, PacketTotal(|image|))
    ensures PendingIds(AtEnd(s).lost) == Missing(s.fw.accepted, PacketTotal(|image|))
  {
    hide Live, Serving, Splits, PendingIds, Missing, RecordGap, GapFits;
    EndsInTable(image, s);
    BooksSplit(image, s);
    PendingIsMissing(s.fw.accepted, AtEnd(s).lost, PacketTotal(|image|));
  }

  // ---- the end of the stream ----

  /** FWUpEnd while something is missing: the missing ids are asked for. */
  lemma EndAsks(image: seq<Byte>, s: Session)
    requires Serving(image, s) && s.fw.nextId > 0
    requires s.fw.nextId < PacketTotal(|image|) ==> GapFits(s.fw, PacketTotal(|image|))
    requires PendingIds(AtEnd(s).lost) != []
    ensures var o := Step(s, Message(FwUpEnd, [], GOOD));
            && !o.ok && o.error == MissingPacketsPending && Serving(image, o.next)
            && o.next.fw == AtEnd(s) && o.next.fw.nextId == PacketTotal(|image|) && o.next.tx == FRESH_TX
  {
    hide Crc16.Of, Roomy, Content, InFlash, ImageValidated, ProgramLog, BlankOutside, LogAccepted, ChecksumHolds,
      Partition;
    FaithfulLive(image, s);
    EndFaithful(image, s, GOOD);
    AtEndKeeps(s);
  }

  lemma FirstLostInImage(fw: Assembly)
    requires Partition(fw.accepted, fw.lost, fw.nextId) && fw.lost != [] && fw.firstLost == fw.lost[0].id
    ensures fw.firstLost < fw.nextId
  {
  }

  lemma ReadyToComplete(image: seq<Byte>, s: Session)
    requires Serving(image, s) && s.fw.nextId == PacketTotal(|image|) && PendingIds(s.fw.lost) == []
    requires InFlash(image, s.area.flash)
    ensures var o := Decide(s, GOOD);
            o.ok && !o.next.crashed && o.next.state == Reboot
    ensures !s.fw.lostActive || PendingIds(s.fw.lost) == []
  {
    hide Crc16.Update, Roomy, Content, Partition, BlankOutside, LogAccepted, ProgramLog;
    FaithfulLive(image, s);
    NothingMissing(|image|, s.fw);
    if s.fw.lostActive {
      FirstLostInImage(s.fw);
      Splice(|image|, s.fw, s.area);
    } else {
      assert ChecksumLength(|image|, s.fw) == |image|;
    }
  }

  /** FWUpEnd with nothing missing: the image is complete, and it is the one sent. */
  lemma EndAccepts(image: seq<Byte>, s: Session)
    requires Serving(image, s) && s.fw.nextId == PacketTotal(|image|) && PendingIds(s.fw.lost) == []
    ensures var o := Step(s, Message(FwUpEnd, [], GOOD));
            o.ok && !o.next.crashed && o.next.state == Reboot && InFlash(image, o.next.area.flash)
  {
    hide Crc16.Update, Roomy, Live, Inv, Content, Partition;
    FaithfulLive(image, s);
    EndFaithful(image, s, GOOD);
    AllInPlace(image, s.fw, s.area);
    ReadyToComplete(image, s);
  }

  /** FWUpEnd when the tail does not fit in the table: the session ends. */
  lemma EndRefuses(image: seq<Byte>, s: Session)
    requires Serving(image, s) && s.fw.nextId < PacketTotal(|image|) && !GapFits(s.fw, PacketTotal(|image|))
    ensures var o := Step(s, Message(FwUpEnd, [], GOOD));
            !o.ok && o.error != MissingPacketsPending && !o.next.crashed && o.next.state == Error
  {
  }
}
