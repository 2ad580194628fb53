/** The host's side of an update: send the packets, ask what is missing, send that again. What arrives in the first
    pass, and in what order, is the caller's choice, and so is which pages of missing ids and which acknowledgements get
    lost; packets sent again and the answers to FWUpEnd arrive. */
module FirmwareHost {
  import opened Bytes
  import opened FirmwareSession
  import opened FirmwareInvariant
  import opened FirmwareSafety
  import opened FirmwareImage
  import opened FirmwareIntegrity
  import opened FirmwarePages
  import opened FirmwareRecovery
  import opened FirmwareRestart
  import opened FirmwareTarget
  import Crc16

  const MAX_ROUNDS: nat := 5
  const MAX_PAGES: nat := 64

  // ---- lost-packet-info frames on the wire ----

  function IdBytes(ids: seq<nat>): (b: seq<Byte>)
    ensures |b| == 2 * |ids|
  {
    if ids == [] then [] else IdBytes(ids[..|ids| - 1]) + PutU16(ids[|ids| - 1])
  }

  /** Pending count, frame number, byte count, and the ids. */
  function PagePayload(p: Page): (b: seq<Byte>)
    ensures |b| == 3 + 2 * |p.ids|
  {
    [(p.pending % 256) as Byte, (p.seqNo % 256) as Byte, (2 * |p.ids| % 256) as Byte] + IdBytes(p.ids)
  }

  lemma {:induction false} IdBytesAt(ids: seq<nat>, k: nat)
    requires k < |ids|
    ensures IdBytes(ids)[2 * k..2 * k + 2] == PutU16(ids[k])
  {
    var n := |ids| - 1;
    if k == n {
    } else {
      IdBytesAt(ids[..n], k);
      assert IdBytes(ids)[2 * k..2 * k + 2] == IdBytes(ids[..n])[2 * k..2 * k + 2];
    }
  }

  lemma IdsReadBack(ids: seq<nat>, read: seq<nat>)
    requires forall k :: 0 <= k < |ids| ==> ids[k] < 0x1_0000
    requires |read| == |ids| && forall k :: 0 <= k < |ids| ==> read[k] == GetU16(IdBytes(ids)[2 * k..2 * k + 2])
    ensures read == ids
  {
    hide PutU16, GetU16, IdBytes;
    forall k | 0 <= k < |ids|
      ensures read[k] == ids[k]
    {
      IdBytesAt(ids, k);
      U16RoundTrip(ids[k]);
    }
  }

  ghost predicate WireSized(p: Page) {
    p.pending < 256 && p.seqNo < 256 && |p.ids| <= PAGE_IDS && forall k :: 0 <= k < |p.ids| ==> p.ids[k] < 0x1_0000
  }

  lemma HeaderReadsBack(p: Page)
    requires WireSized(p)
    ensures var b := PagePayload(p);
            |b| >= 3 && forall k :: 0 <= k < |p.ids| ==> p.ids[k] < 0x1_0000
    ensures var b := PagePayload(p);
            b[0] as nat == p.pending && b[1] as nat == p.seqNo && b[2] as nat == 2 * |p.ids| && b[3..] == IdBytes(p.ids)
  {
    ByteRoundTrip(p.pending);
    ByteRoundTrip(p.seqNo);
    ByteRoundTrip(2 * |p.ids|);
  }

  /** The host's parser. A payload shorter than its header reads as an empty last page. */
  method ParseLostPacketInfo(payload: seq<Byte>) returns (ids: seq<nat>, remaining: int, seqNo: Option<nat>)
    ensures |payload| < 3 ==> ids == [] && remaining == 0 && seqNo == None
    ensures forall p: Page :: payload == PagePayload(p) && WireSized(p) ==>
              ids == p.ids && remaining == p.pending - |p.ids| && seqNo == Some(p.seqNo)
  {
    hide GetU16, PutU16, PagePayload, WireSized;
    if |payload| < 3 {
      return [], 0, None;
    }
    var pending, byteCount := payload[0] as nat, payload[2] as nat;
    var info := payload[3..Min(|payload|, 3 + byteCount)];
    ids := [];
    var index := 0;
    while index < |info| - 1
      invariant index == 2 * |ids| && index <= |info| + 1
      invariant forall k :: 0 <= k < |ids| ==> 2 * k + 2 <= |info| && ids[k] == GetU16(info[2 * k..2 * k + 2])
      decreases |info| - index
    {
      ids := ids + [GetU16(info[index..index + 2])];
      index := index + 2;
    }
    remaining, seqNo := pending - |ids|, Some(payload[1] as nat);
    forall p: Page | payload == PagePayload(p) && WireSized(p)
      ensures ids == p.ids && remaining == p.pending - |p.ids| && seqNo == Some(p.seqNo)
    {
      HeaderReadsBack(p);
      assert info == IdBytes(p.ids);
      IdsReadBack(p.ids, ids);
    }
  }

  // ---- recovery ----

  /** The ids of `page` not seen before, appended to those seen. */
  function Merge(seen: seq<nat>, page: seq<nat>): seq<nat> {
    if page == [] then seen
    else
      var m, id := Merge(seen, page[..|page| - 1]), page[|page| - 1];
      if id in m then m else m + [id]
  }

  method AddUnseen(seen: seq<nat>, page: seq<nat>) returns (m: seq<nat>)
    ensures m == Merge(seen, page)
  {
    m := seen;
    for i := 0 to |page|
      invariant m == Merge(seen, page[..i])
    {
      assert page[..i + 1][..i] == page[..i];
      if page[i] !in m {
        m := m + [page[i]];
      }
    }
    assert page[..|page|] == page;
  }

  ghost predicate Distinct(ids: seq<nat>) { forall i, j :: 0 <= i < j < |ids| ==> ids[i] != ids[j] }

  lemma {:induction false} MergeNew(page: seq<nat>)
    requires Distinct(page)
    ensures Merge([], page) == page
  {
    if page == [] {
    } else {
      MergeNew(page[..|page| - 1]);
    }
  }

  lemma {:induction false} MergeAgain(seen: seq<nat>, page: seq<nat>)
    requires forall i :: 0 <= i < |page| ==> page[i] in seen
    ensures Merge(seen, page) == seen
  {
    if page == [] {
    } else {
      MergeAgain(seen, page[..|page| - 1]);
    }
  }

  lemma {:induction false} PendingDistinct(lost: seq<LostEntry>)
    requires forall i, j :: 0 <= i < j < |lost| ==> lost[i].id < lost[j].id
    ensures Distinct(PendingIds(lost))
  {
    if lost == [] {
    } else {
      var n := |lost| - 1;
      PendingDistinct(lost[..n]);
      forall i | 0 <= i < |PendingIds(lost[..n])|
        ensures PendingIds(lost[..n])[i] != lost[n].id
      {
        PendingMembers(lost[..n], PendingIds(lost[..n])[i]);
      }
    }
  }

  /** A page of a session: distinct ids of the image, in fields that fit the frame. */
  lemma PageWellFormed(image: seq<Byte>, s: Session)
    requires Serving(image, s)
    ensures WireSized(PageOf(s)) && Distinct(PageOf(s).ids)
  {
    hide Crc16.Of, Content, Roomy, ProgramLog, BlankOutside, LogAccepted, ChecksumHolds;
    FaithfulLive(image, s);
    PendingDistinct(s.fw.lost);
    forall k | 0 <= k < |PageOf(s).ids|
      ensures PageOf(s).ids[k] < 0x1_0000
    {
      PendingMembers(s.fw.lost, PendingIds(s.fw.lost)[k]);
    }
  }

  // ---- pages that get lost ----

  /** What the link does to one page the host asks for: the transmissions before the one that arrives, with whether the
      bus took them, and whether the acknowledgement arrives. */
  datatype Loss = Loss(missed: seq<bool>, acked: bool)

  /** How many attempts a page costs the target that is sent for the first time. */
  function FirstCost(missed: seq<bool>): nat { |missed| + if missed != [] && !missed[0] then 1 else 0 }

  /** How many attempts the target has counted when the page asked for `n` pages later arrives. A page that was not
      acknowledged is still out when the next is asked for, and comes again. */
  function Tries(link: nat -> Loss, n: nat): nat {
    if n == 0 || link(n - 1).acked then FirstCost(link(n).missed) else Tries(link, n - 1) + |link(n).missed| + 1
  }

  /** The first `n` pages arrive before the target gives up. */
  predicate Carries(link: nat -> Loss, n: nat) { forall i :: 0 <= i < n ==> Tries(link, i) <= MAX_RETRIES }

  /** How many pages the host asks for. */
  function Asks(pending: nat): nat { if pending <= PAGE_IDS then 1 else MAX_PAGES }

  lemma CarriesOne(link: nat -> Loss, n: nat)
    ensures Carries(link, n + 1) <==> Carries(link, n) && Tries(link, n) <= MAX_RETRIES
    ensures Carries(link, 0)
    ensures Carries(link, n) && n > 0 ==> Carries(link, 1)
  {
    hide Tries;
  }

  lemma CarriesLess(link: nat -> Loss, n: nat, m: nat)
    ensures n <= m && Carries(link, m) ==> Carries(link, n)
  {
    hide Tries;
  }

  lemma WaitingWellFormed(image: seq<Byte>, s: Session, p: Page)
    requires Waiting(image, s, p)
    ensures WireSized(p) && Distinct(p.ids) && !s.crashed && s.state == InProgress
  {
    hide Serving, Distinct;
    ServingFields(image, Settled(s));
    PageWellFormed(image, Settled(s));
  }

  /** A page that is out or about to be sent, with the attempts counted so far; past the limit the session has ended. */
  ghost predicate Out(image: seq<Byte>, was: Session, s: Session, p: Page, tries: nat) {
    if tries <= MAX_RETRIES then Waiting(image, s, p) && SameImage(was, s) && s.tx.retries == tries else Ended(s)
  }

  lemma TimeoutSends(image: seq<Byte>, was: Session, s: Session, p: Page, tries: nat, sendOk: bool)
    requires Out(image, was, s, p, tries)
    ensures var o := Step(s, TxTimeout(GOOD.(sendOk := sendOk)));
            && Out(image, was, o.next, p, tries + 1)
            && o.page == if tries < MAX_RETRIES && sendOk then Some(p) else None
  {
    hide Waiting, Step, Abort;
    var io := GOOD.(sendOk := sendOk);
    if tries <= MAX_RETRIES {
      PageSentAgain(image, s, p, TxTimeout(io));
      GivenUp(image, s, p);
    } else {
      EndedIgnores(s, TxTimeout(io));
    }
  }

  /** A request finds the link idle, or is refused while a page is out. */
  lemma RequestOrRefusal(image: seq<Byte>, s: Session, p: Page, sendOk: bool)
    requires (Serving(image, s) && p == PageOf(s)) || Waiting(image, s, p)
    ensures var o := Step(s, Message(GetLostPacketInfo, [], GOOD.(sendOk := sendOk)));
            if s.tx.state == TxIdle then
              Out(image, s, o.next, p, if sendOk then 0 else 1) && o.page == if sendOk then Some(p) else None
            else Out(image, s, o.next, p, s.tx.retries)
  {
    hide Serving, Step, PageOf;
    if s.tx.state == TxIdle {
      RequestSends(image, s, GOOD.(sendOk := sendOk));
    } else if Waiting(image, s, p) {
      RequestRefused(image, s, p, GOOD.(sendOk := sendOk));
    } else {
      ServingFields(image, s);
    }
  }

  lemma PageStillOut(image: seq<Byte>, s: Session, p: Page)
    requires Waiting(image, s, p)
    ensures p.ids == PageOf(s).ids && p.pending == PageOf(s).pending && s.tx.state != TxIdle
  {
    hide Serving, PendingIds;
  }

  /** The request for a page, and the wait for it: while it does not arrive, the target sends it again whenever its time
      is up. */
  method AwaitPage(target: Target, loss: Loss, ghost image: seq<Byte>, ghost p: Page) returns (page: Option<Page>)
    requires target.Valid()
    requires (Serving(image, target.View()) && p == PageOf(target.View())) || Waiting(image, target.View(), p)
    modifies target, target.table, target.flash
    ensures target.Valid()
    ensures var s := old(target.View());
            var tries := if s.tx.state == TxIdle then FirstCost(loss.missed) else s.tx.retries + |loss.missed| + 1;
            Out(image, s, target.View(), p, tries) && page == if tries <= MAX_RETRIES then Some(p) else None
  {
    hide Serving, Waiting, Step, Ended;
    ghost var s := target.View();
    var idle := target.tx.state == TxIdle;
    var sendOk := loss.missed == [] || loss.missed[0];
    RequestOrRefusal(image, s, p, sendOk);
    var _, _, first := target.Handle(Message(GetLostPacketInfo, [], GOOD.(sendOk := sendOk)));
    if idle && loss.missed == [] {
      return first;
    }
    ghost var tries: nat := if !idle then s.tx.retries else if sendOk then 0 else 1;
    for i := if idle then 1 else 0 to |loss.missed|
      invariant target.Valid() && Out(image, s, target.View(), p, tries)
      invariant tries == if idle then i - 1 + (if sendOk then 0 else 1) else s.tx.retries + i
    {
      TimeoutSends(image, s, target.View(), p, tries, loss.missed[i]);
      tries := tries + 1;
      var _, _, _ := target.Handle(TxTimeout(GOOD.(sendOk := loss.missed[i])));
    }
    TimeoutSends(image, s, target.View(), p, tries, true);
    var _, _, last := target.Handle(TxTimeout(GOOD.(sendOk := true)));
    return last;
  }

  /** One page: asked for, awaited, read and acknowledged. */
  method AskPage(target: Target, loss: Loss, ghost image: seq<Byte>, ghost p: Page)
    returns (arrived: bool, ids: seq<nat>, left: int)
    requires target.Valid()
    requires (Serving(image, target.View()) && p == PageOf(target.View())) || Waiting(image, target.View(), p)
    modifies target, target.table, target.flash
    ensures target.Valid()
    ensures var s := old(target.View());
            var tries := if s.tx.state == TxIdle then FirstCost(loss.missed) else s.tx.retries + |loss.missed| + 1;
            if tries <= MAX_RETRIES then
              && arrived && ids == p.ids && left == p.pending - |p.ids| && Distinct(ids) && SameImage(s, target.View())
              && if loss.acked then Serving(image, target.View())
                 else Waiting(image, target.View(), p) && target.View().tx.retries == tries
            else !arrived && Ended(target.View())
  {
    hide Serving, Waiting, Step, PagePayload, WireSized, Distinct, PendingIds, Ended;
    var page := AwaitPage(target, loss, image, p);
    if page == None {
      return false, [], 0;
    }
    WaitingWellFormed(image, target.View(), p);
    var seqNo;
    ids, left, seqNo := ParseLostPacketInfo(PagePayload(page.value));
    assert ids == p.ids && seqNo == Some(p.seqNo);
    arrived := true;
    if seqNo.Some? && loss.acked {
      PageAcknowledged(image, target.View(), p, GOOD);
      var _, _, _ := target.Handle(HostAck(ACK, seqNo.value, GOOD));
    }
  }

  lemma Merged(ids: seq<nat>)
    requires Distinct(ids)
    ensures Merge([], ids) == ids == Merge(ids, ids)
  {
    MergeNew(ids);
    MergeAgain(ids, ids);
  }

  /** Where the host stands after asking for `n` pages. */
  ghost predicate Asked(image: seq<Byte>, was: Session, s: Session, p: Page, link: nat -> Loss, n: nat) {
    && SameImage(was, s)
    && if n == 0 || link(n - 1).acked then Serving(image, s)
       else Waiting(image, s, p) && s.tx.retries == Tries(link, n - 1)
  }

  /** The page asked for next. */
  lemma NextPage(image: seq<Byte>, was: Session, s: Session, p: Page, link: nat -> Loss, n: nat) returns (q: Page)
    requires Asked(image, was, s, p, link, n)
    ensures (Serving(image, s) && q == PageOf(s)) || Waiting(image, s, q)
    ensures q.ids == PageOf(was).ids && q.pending == |PendingIds(was.fw.lost)|
    ensures Tries(link, n) == if s.tx.state == TxIdle then FirstCost(link(n).missed)
                              else s.tx.retries + |link(n).missed| + 1
  {
    hide Serving, Waiting, PendingIds;
    if n == 0 || link(n - 1).acked {
      q := PageOf(s);
      ServingFields(image, s);
    } else {
      q := p;
      PageStillOut(image, s, p);
    }
  }

  /** Ask for the missing ids, page by page, acknowledging each page. The target does not move on between pages, so
      however many requests are made the ids are those of the first page, as long as none of them is lost for good. */
  method RequestMissingIds(target: Target, link: nat -> Loss, ghost image: seq<Byte>) returns (missing: seq<nat>)
    requires target.Valid() && Serving(image, target.View())
    modifies target, target.table, target.flash
    ensures target.Valid()
    ensures var s := old(target.View());
            var n := Asks(|PendingIds(s.fw.lost)|);
            if Carries(link, n) then
              && missing == PageOf(s).ids && SameImage(s, target.View())
              && if link(n - 1).acked then Serving(image, target.View())
                 else exists p :: Waiting(image, target.View(), p)
            else Ended(target.View()) && missing == if Carries(link, 1) then PageOf(s).ids else []
  {
    hide Serving, Waiting, Distinct, PendingIds, Ended, Carries, Tries, FirstCost;
    missing := [];
    var remaining, pages := 1, 0;
    ghost var s := target.View();
    ghost var ids, p := PageOf(s).ids, PageOf(s);
    CarriesOne(link, 0);
    while remaining > 0
      invariant target.Valid() && pages <= Asks(|PendingIds(s.fw.lost)|)
      invariant Asked(image, s, target.View(), p, link, pages) && Carries(link, pages)
      invariant missing == if pages == 0 then [] else ids
      invariant remaining == if pages == 0 then 1 else |PendingIds(s.fw.lost)| - |ids|
      decreases MAX_PAGES - pages
    {
      if pages + 1 > MAX_PAGES {
        break;
      }
      pages := pages + 1;
      p := NextPage(image, s, target.View(), p, link, pages - 1);
      CarriesOne(link, pages - 1);
      CarriesLess(link, pages, Asks(|PendingIds(s.fw.lost)|));
      var arrived, pageIds, left := AskPage(target, link(pages - 1), image, p);
      if !arrived {
        break;
      }
      remaining := left;
      Merged(pageIds);
      missing := AddUnseen(missing, pageIds);
      if pageIds == [] {
        break;
      }
    }
  }

  /** Send the packets asked for, in the order asked. To a session that has ended they mean nothing. */
  method SendPackets(target: Target, image: seq<Byte>, ids: seq<nat>)
    requires target.Valid() && 0 < |image| <= MAX_IMAGE && PacketTotal(|image|) <= MAX_PACKETS
    requires Ended(target.View()) || (Serving(image, target.View()) && ids <= PendingIds(target.View().fw.lost))
    modifies target, target.table, target.flash
    ensures target.Valid()
    ensures Ended(old(target.View())) ==> Ended(target.View())
    ensures !Ended(old(target.View())) ==>
              && Serving(image, target.View()) && target.View().fw.nextId == old(target.View().fw.nextId)
              && PendingIds(target.View().fw.lost) == PendingIds(old(target.View().fw.lost))[|ids|..]
  {
    hide Serving, Step, PendingIds, Ended;
    ghost var s := target.View();
    ghost var all := PendingIds(s.fw.lost);
    for i := 0 to |ids|
      invariant target.Valid() && (Ended(s) ==> Ended(target.View()))
      invariant !Ended(s) ==>
                  && Serving(image, target.View()) && target.View().fw.nextId == s.fw.nextId
                  && PendingIds(target.View().fw.lost) == all[i..]
    {
      if Ended(s) {
        forall payload: seq<Byte>
          ensures Step(target.View(), Message(FwUpMsg, payload, GOOD)).next == target.View()
        {
          EndedIgnores(target.View(), Message(FwUpMsg, payload, GOOD));
        }
      } else {
        assert all[i..][0] == ids[i] && all[i..][1..] == all[i + 1..];
        ResendFirst(image, target.View());
      }
      if ids[i] < PacketTotal(|image|) {
        var _, _, _ := target.Handle(Message(FwUpMsg, PacketPayload(image, ids[i]), GOOD));
      }
    }
  }

  /** What is missing once the target knows that the stream ended. */
  ghost function MissingAtEnd(s: Session): seq<nat> { PendingIds(AtEnd(s).lost) }

  /** The tail of the image fits in the lost table. */
  ghost predicate TailFits(image: seq<Byte>, s: Session) {
    s.fw.nextId < PacketTotal(|image|) ==> GapFits(s.fw, PacketTotal(|image|))
  }

  function Rounds(missing: nat): nat { (missing + PAGE_IDS - 1) / PAGE_IDS }

  /** What `n` rounds leave of the missing ids. */
  function LeftAfter(all: seq<nat>, n: nat): seq<nat> { all[Min(PAGE_IDS * n, |all|)..] }

  lemma LeftDrops(all: seq<nat>, n: nat)
    ensures LeftAfter(all, n)[Min(PAGE_IDS, |LeftAfter(all, n)|)..] == LeftAfter(all, n + 1)
    ensures LeftAfter(all, 0) == all
  {
  }

  lemma RoundCount(all: seq<nat>, n: nat)
    ensures LeftAfter(all, n) == [] && (n > 0 ==> LeftAfter(all, n - 1) != []) ==> n == Rounds(|all|)
    ensures |all| <= MAX_LOST ==> Rounds(|all|) <= 4 && LeftAfter(all, 4) == []
    ensures LeftAfter(all, 4) == [] && n > 4 ==> LeftAfter(all, n - 1) == []
    ensures LeftAfter(all, 0) == all
  {
  }

  lemma MissingBound(image: seq<Byte>, s: Session)
    requires Serving(image, s)
    ensures TailFits(image, s) ==> |MissingAtEnd(s)| <= MAX_LOST
    ensures s.state == InProgress && s.PacketCount() == PacketTotal(|image|)
  {
    hide Faithful, PendingIds;
    FaithfulLive(image, s);
    LiveTable(image, s);
  }

  lemma AfterRound(image: seq<Byte>, s: Session)
    requires Serving(image, s) && s.fw.nextId == PacketTotal(|image|)
    ensures AtEnd(s) == s.fw && TailFits(image, s) && s.state == InProgress && !s.crashed
  {
    MissingBound(image, s);
  }

  lemma ServingSizes(image: seq<Byte>, s: Session)
    requires Serving(image, s)
    ensures 0 < |image| <= MAX_IMAGE && PacketTotal(|image|) <= MAX_PACKETS && !Ended(s)
    ensures PageOf(s).ids <= PendingIds(s.fw.lost) && |PageOf(s).ids| == Min(PAGE_IDS, |PendingIds(s.fw.lost)|)
  {
    hide Faithful, PendingIds;
  }

  /** One round: the first 30 missing packets are asked for, sent and recovered, unless a page is lost for good. */
  method RecoverOnce(target: Target, image: seq<Byte>, link: nat -> Loss) returns (recovered: bool)
    requires target.Valid() && Serving(image, target.View()) && target.View().fw.nextId == PacketTotal(|image|)
    requires PendingIds(target.View().fw.lost) != []
    requires link(Asks(|PendingIds(target.View().fw.lost)|) - 1).acked
    modifies target, target.table, target.flash
    ensures target.Valid()
    ensures var before := PendingIds(old(target.View().fw.lost));
            if Carries(link, Asks(|before|)) then
              && recovered && Serving(image, target.View()) && target.View().state == InProgress
              && !target.View().crashed && target.View().fw.nextId == PacketTotal(|image|)
              && TailFits(image, target.View())
              && MissingAtEnd(target.View()) == before[Min(PAGE_IDS, |before|)..]
            else Ended(target.View())
  {
    hide Serving, PendingIds, AtEnd, GapFits, Carries, Ended;
    ServingSizes(image, target.View());
    ghost var carried := Carries(link, Asks(|PendingIds(target.View().fw.lost)|));
    var missing := RequestMissingIds(target, link, image);
    if missing == [] {
      return false;
    }
    if carried {
      ServingSizes(image, target.View());
    }
    SendPackets(target, image, missing);
    if carried {
      AfterRound(image, target.View());
    }
    return true;
  }

  lemma GapStaysPending(lost: seq<LostEntry>, from: nat, upTo: nat)
    requires from <= upTo
    ensures from < upTo ==> PendingIds(lost + Gap(from, upTo)) != []
  {
    if from < upTo {
      GapPending(from, upTo);
      PendingConcat(lost, Gap(from, upTo));
    }
  }

  lemma NothingMissingAtEnd(image: seq<Byte>, s: Session)
    requires Serving(image, s) && TailFits(image, s) && MissingAtEnd(s) == []
    ensures s.fw.nextId == PacketTotal(|image|) && PendingIds(s.fw.lost) == []
  {
    MissingBound(image, s);
    GapStaysPending(s.fw.lost, s.fw.nextId, PacketTotal(|image|));
  }

  /** What FWUpEnd answers, and when. */
  lemma EndOutcome(image: seq<Byte>, s: Session)
    requires !s.crashed && ((Serving(image, s) && s.fw.nextId > 0) || s.state == Error)
    ensures var o := Step(s, Message(FwUpEnd, [], GOOD));
            if s.state == Error || !TailFits(image, s) then !o.ok && o.error != MissingPacketsPending
            else if MissingAtEnd(s) == [] then o.ok && o.next.state == Reboot && InFlash(image, o.next.area.flash)
            else !o.ok && o.error == MissingPacketsPending && Serving(image, o.next)
                 && o.next.fw == AtEnd(s) && o.next.fw.nextId == PacketTotal(|image|) > 0
  {
    hide Finalize, Faithful;
    if s.state != Error {
      MissingBound(image, s);
      if !TailFits(image, s) {
        EndRefuses(image, s);
      } else if MissingAtEnd(s) == [] {
        NothingMissingAtEnd(image, s);
        EndAccepts(image, s);
      } else {
        EndAsks(image, s);
      }
    }
  }

  /** How many of the missing ids `n` rounds leave. */
  function Remaining(missing: nat, n: nat): nat { missing - Min(PAGE_IDS * n, missing) }

  /** In every round the missing ids reach the host before the target gives up. */
  predicate AllCarried(link: nat -> nat -> Loss, missing: nat) {
    forall r :: 0 <= r < Rounds(missing) ==> Carries(link(r), Asks(Remaining(missing, r)))
  }

  /** In every round the host's last acknowledgement arrives. */
  predicate LastAcked(link: nat -> nat -> Loss, missing: nat) {
    forall r :: 0 <= r < Rounds(missing) ==> link(r)(Asks(Remaining(missing, r)) - 1).acked
  }

  lemma RoundsLeft(all: seq<nat>, n: nat)
    requires LeftAfter(all, n) != []
    ensures n < Rounds(|all|) && |LeftAfter(all, n)| == Remaining(|all|, n)
  {
  }

  /** Behind the rounds that leave nothing there are no others to carry. */
  lemma RoundsDone(link: nat -> nat -> Loss, all: seq<nat>, n: nat)
    requires LeftAfter(all, n) == []
    requires forall r :: 0 <= r < n ==> Carries(link(r), Asks(Remaining(|all|, r)))
    ensures AllCarried(link, |all|)
  {
    hide Carries, Asks;
    assert Rounds(|all|) <= n;
  }

  lemma NotCarried(link: nat -> nat -> Loss, missing: nat, n: nat)
    requires n < Rounds(missing)
    ensures AllCarried(link, missing) ==> Carries(link(n), Asks(Remaining(missing, n)))
    ensures LastAcked(link, missing) ==> link(n)(Asks(Remaining(missing, n)) - 1).acked
  {
    hide Carries, Asks;
  }

  /** The update can be completed from here. */
  ghost predicate Completable(image: seq<Byte>, was: Session, link: nat -> nat -> Loss) {
    was.state == InProgress && TailFits(image, was) && AllCarried(link, |MissingAtEnd(was)|)
  }

  /** Where an update stands after `n` rounds of recovery. */
  ghost predicate AfterRounds(image: seq<Byte>, was: Session, s: Session, link: nat -> nat -> Loss, n: nat) {
    var all := MissingAtEnd(was);
    if s.state == Error then !s.crashed && !Completable(image, was, link)
    else
      && was.state == InProgress
      && Serving(image, s) && s.fw.nextId > 0
      && TailFits(image, s) == TailFits(image, was) && (TailFits(image, was) ==> |all| <= MAX_LOST)
      && MissingAtEnd(s) == LeftAfter(all, n)
      && (n > 0 ==> LeftAfter(all, n - 1) != [] && TailFits(image, s))
      && forall r :: 0 <= r < n ==> Carries(link(r), Asks(Remaining(|all|, r)))
  }

  lemma NoRounds(image: seq<Byte>, s: Session, link: nat -> nat -> Loss)
    requires !s.crashed && ((Serving(image, s) && s.fw.nextId > 0) || s.state == Error)
    ensures AfterRounds(image, s, s, link, 0)
  {
    hide Serving, AtEnd, TailFits, AllCarried;
    LeftDrops(MissingAtEnd(s), 0);
    if s.state != Error {
      MissingBound(image, s);
    }
  }

  /** What FWUpEnd answers after `n` rounds: accepted, refused for good, or another round is needed. */
  lemma EndAfterRounds(image: seq<Byte>, was: Session, s: Session, link: nat -> nat -> Loss, n: nat)
    requires AfterRounds(image, was, s, link, n) && n <= MAX_ROUNDS
    requires was.state == InProgress && TailFits(image, was) ==> LastAcked(link, |MissingAtEnd(was)|)
    ensures var o := Step(s, Message(FwUpEnd, [], GOOD));
            var all := MissingAtEnd(was);
            && (o.ok ==> o.next.state == Reboot && InFlash(image, o.next.area.flash))
            && (o.ok || o.error != MissingPacketsPending ==> (o.ok <==> Completable(image, was, link)))
            && (o.ok ==> n == Rounds(|all|) <= 4)
            && (!o.ok && o.error == MissingPacketsPending ==>
                  && n < MAX_ROUNDS && Serving(image, o.next) && o.next.fw.nextId == PacketTotal(|image|) > 0
                  && PendingIds(o.next.fw.lost) == LeftAfter(all, n) != [] && TailFits(image, was)
                  && was.state == InProgress && link(n)(Asks(|LeftAfter(all, n)|) - 1).acked)
  {
    hide Serving, Step, AtEnd, InFlash, TailFits, LeftAfter, Rounds, Remaining, Carries, Asks, AllCarried, LastAcked;
    var all := MissingAtEnd(was);
    if s.state != Error {
      ServingFields(image, s);
    }
    EndOutcome(image, s);
    RoundCount(all, n);
    if s.state != Error {
      var o := Step(s, Message(FwUpEnd, [], GOOD));
      if o.ok {
        RoundsDone(link, all, n);
      } else if o.error == MissingPacketsPending {
        RoundsLeft(all, n);
        NotCarried(link, |all|, n);
        ServingFields(image, o.next);
      }
    }
  }

  lemma ErrorRefuses(image: seq<Byte>, was: Session, s: Session, link: nat -> nat -> Loss, n: nat)
    requires AfterRounds(image, was, s, link, n)
    requires Step(s, Message(FwUpEnd, [], GOOD)).error == MissingPacketsPending
    ensures s.state != Error
  {
    hide Serving;
    EndOutcome(image, s);
  }

  lemma LostForGood(image: seq<Byte>, was: Session, s: Session, link: nat -> nat -> Loss, n: nat)
    requires AfterRounds(image, was, s, link, n) && Ended(s)
    ensures !Completable(image, was, link)
  {
    hide Serving;
  }

  /** A round more. */
  lemma AfterOneMore(image: seq<Byte>, was: Session, s: Session, t: Session, link: nat -> nat -> Loss, n: nat)
    requires AfterRounds(image, was, s, link, n) && s.state != Error && TailFits(image, was)
    requires var before := LeftAfter(MissingAtEnd(was), n);
             && before != []
             && if Carries(link(n), Asks(|before|)) then
                  && Serving(image, t) && t.state == InProgress && t.fw.nextId > 0 && TailFits(image, t)
                  && MissingAtEnd(t) == before[Min(PAGE_IDS, |before|)..]
                else Ended(t)
    ensures AfterRounds(image, was, t, link, n + 1)
  {
    hide Serving, AtEnd, TailFits, LeftAfter, Rounds, Remaining, Carries, Asks, AllCarried, LastAcked;
    var all := MissingAtEnd(was);
    LeftDrops(all, n);
    RoundsLeft(all, n);
    NotCarried(link, |all|, n);
  }

  /** FWUpEnd, and a recovery round for every refusal, up to MAX_ROUNDS of them. Each round recovers the first 30
      missing packets, so a session within the lost-packet limit is accepted after at most four, unless the link keeps
      a page from the host until the target gives up. */
  method CompleteUpdateWithRecovery(target: Target, image: seq<Byte>, link: nat -> nat -> Loss)
    returns (accepted: bool, rounds: nat)
    requires target.Valid() && !target.View().crashed
    requires (Serving(image, target.View()) && target.View().fw.nextId > 0) || target.View().state == Error
    requires target.View().state == InProgress && TailFits(image, target.View()) ==>
               LastAcked(link, |MissingAtEnd(target.View())|)
    modifies target, target.table, target.flash
    ensures accepted <==> Completable(image, old(target.View()), link)
    ensures accepted ==> rounds == Rounds(|MissingAtEnd(old(target.View()))|) <= 4
    ensures accepted ==> target.Valid() && target.View().state == Reboot && InFlash(image, target.View().area.flash)
  {
    hide Serving, Step, AtEnd, InFlash, TailFits, LeftAfter, Rounds, Carries, Asks, LastAcked, AfterRounds, Completable,
      PendingIds, Ended;
    rounds := 0;
    ghost var was := target.View();
    NoRounds(image, was, link);
    while true
      invariant target.Valid() && rounds <= MAX_ROUNDS && AfterRounds(image, was, target.View(), link, rounds)
      decreases MAX_ROUNDS - rounds
    {
      ghost var s := target.View();
      EndAfterRounds(image, was, s, link, rounds);
      var ok, err, _ := target.Handle(Message(FwUpEnd, [], GOOD));
      if ok {
        return true, rounds;
      }
      if err != MissingPacketsPending {
        return false, rounds;
      }
      if rounds + 1 > MAX_ROUNDS {
        return false, rounds;
      }
      rounds := rounds + 1;
      var recovered := RecoverOnce(target, image, link(rounds - 1));
      ErrorRefuses(image, was, s, link, rounds - 1);
      AfterOneMore(image, was, s, target.View(), link, rounds - 1);
      if !recovered {
        LostForGood(image, was, target.View(), link, rounds);
        return false, rounds;
      }
    }
  }

  // ---- a whole update ----

  /** The id after the largest of `ids`. */
  function Reach(ids: seq<nat>): nat {
    if ids == [] then 0
    else
      var r, id := Reach(ids[..|ids| - 1]), ids[|ids| - 1];
      if id < r then r else id + 1
  }

  /** How many of `ids` are larger than all before them. */
  function Leaders(ids: seq<nat>): nat {
    if ids == [] then 0
    else Leaders(ids[..|ids| - 1]) + if ids[|ids| - 1] < Reach(ids[..|ids| - 1]) then 0 else 1
  }

  /** In the host's own order every packet is ahead of those before it: what counts is how many were left out. */
  lemma {:induction false} InOrderAllLead(ids: seq<nat>)
    requires forall i, j :: 0 <= i < j < |ids| ==> ids[i] < ids[j]
    ensures Leaders(ids) == |ids| && Reach(ids) == if ids == [] then 0 else ids[|ids| - 1] + 1
  {
    if ids == [] {
    } else {
      InOrderAllLead(ids[..|ids| - 1]);
    }
  }

  function Delivered(ids: seq<nat>): set<nat> { set id | id in ids }

  lemma {:induction false} LeadersWithinReach(ids: seq<nat>, total: nat)
    requires forall i :: 0 <= i < |ids| ==> ids[i] < total
    ensures Leaders(ids) <= Reach(ids) <= total
    ensures ids != [] ==> Reach(ids) > 0
  {
    if ids == [] {
    } else {
      LeadersWithinReach(ids[..|ids| - 1], total);
    }
  }

  /** Where the first pass stands once `ids` got through, in that order. */
  ghost predicate FirstPass(image: seq<Byte>, s: Session, ids: seq<nat>) {
    && !s.crashed
    && (s.state == Error ==> Reach(ids) - Leaders(ids) > MAX_LOST)
    && (s.state != Error ==>
          && Serving(image, s) && s.fw.nextId == Reach(ids) && s.fw.accepted == Delivered(ids)
          && |s.fw.lost| == Reach(ids) - Leaders(ids))
  }

  lemma ServingState(image: seq<Byte>, s: Session)
    requires Serving(image, s)
    ensures s.state == InProgress && !s.crashed && |s.fw.lost| <= MAX_LOST
  {
    LiveTable(image, s);
  }

  lemma PassStarts(image: seq<Byte>, s: Session)
    requires s.state == Idle && !s.crashed && s.tx == FRESH_TX && ProgramLog(s.area)
    requires 0 < |image| <= MAX_IMAGE && PacketTotal(|image|) <= MAX_PACKETS && Roomy(image, s.area)
    ensures FirstPass(image, Step(s, Message(FwUpReq, UpdateRequest(image), GOOD)).next, [])
  {
    hide Serving, Step;
    StartsServing(image, s);
    ServingState(image, Step(s, Message(FwUpReq, UpdateRequest(image), GOOD)).next);
  }

  lemma OneMore(ids: seq<nat>, id: nat)
    ensures Delivered(ids + [id]) == Delivered(ids) + {id}
    ensures Reach(ids + [id]) == if id < Reach(ids) then Reach(ids) else id + 1
    ensures Leaders(ids + [id]) == Leaders(ids) + if id < Reach(ids) then 0 else 1
  {
    assert (ids + [id])[..|ids|] == ids;
  }

  lemma ErrorStays(s: Session, payload: seq<Byte>)
    requires s.state == Error && !s.crashed
    ensures Step(s, Message(FwUpMsg, payload, GOOD)).next == s
  {
  }

  lemma DeliverOne(image: seq<Byte>, s: Session, ids: seq<nat>, id: nat)
    requires FirstPass(image, s, ids) && id < PacketTotal(|image|)
    requires forall i :: 0 <= i < |ids| ==> ids[i] < PacketTotal(|image|)
    ensures FirstPass(image, Step(s, Message(FwUpMsg, PacketPayload(image, id), GOOD)).next, ids + [id])
  {
    hide Serving, Step, Reach, Leaders, Delivered, PacketPayload, PacketTotal;
    OneMore(ids, id);
    LeadersWithinReach(ids, PacketTotal(|image|));
    if s.state == Error {
      ErrorStays(s, PacketPayload(image, id));
    } else {
      ServingState(image, s);
      Deliver(image, s, id);
      if !SkipsTooMany(s.fw, id) {
        ServingState(image, Step(s, Message(FwUpMsg, PacketPayload(image, id), GOOD)).next);
      }
    }
  }

  /** After the first pass: what is missing at the end is what never arrived. */
  lemma PassEnds(image: seq<Byte>, s: Session, ids: seq<nat>)
    requires 0 < |image| && FirstPass(image, s, ids)
    requires ids != [] && forall i :: 0 <= i < |ids| ==> ids[i] < PacketTotal(|image|)
    ensures s.state == Error || (Serving(image, s) && s.fw.nextId > 0 && s.state == InProgress)
    ensures s.state == InProgress && TailFits(image, s) <==> PacketTotal(|image|) - Leaders(ids) <= MAX_LOST
    ensures s.state != Error && TailFits(image, s) ==> MissingAtEnd(s) == Missing(Delivered(ids), PacketTotal(|image|))
  {
    hide Serving, PendingIds, Missing;
    LeadersWithinReach(ids, PacketTotal(|image|));
    if s.state != Error {
      ServingState(image, s);
      if TailFits(image, s) {
        MissingIsUnaccepted(image, s);
      }
    }
  }

  /** One request, packets of the image in any order and number, then the end and recovery. The update is accepted
      exactly when all but 100 packets arrived ahead of every larger one and no page of missing ids is lost so often
      that the target gives up. A round is needed for each 30 packets that never arrived, and then the slot holds the
      image. */
  method SendUpdate(target: Target, image: seq<Byte>, ids: seq<nat>, link: nat -> nat -> Loss)
    returns (accepted: bool, rounds: nat)
    requires target.Valid() && target.View().state == Idle && !target.View().crashed && target.View().tx == FRESH_TX
    requires ProgramLog(target.View().area)
    requires 0 < |image| <= MAX_IMAGE && PacketTotal(|image|) <= MAX_PACKETS && Roomy(image, target.View().area)
    requires ids != [] && forall i :: 0 <= i < |ids| ==> ids[i] < PacketTotal(|image|)
    requires LastAcked(link, |Missing(Delivered(ids), PacketTotal(|image|))|)
    modifies target, target.table, target.flash
    ensures accepted <==>
              PacketTotal(|image|) - Leaders(ids) <= MAX_LOST &&
              AllCarried(link, |Missing(Delivered(ids), PacketTotal(|image|))|)
    ensures accepted ==> rounds == Rounds(|Missing(Delivered(ids), PacketTotal(|image|))|) <= 4
    ensures accepted ==> target.Valid() && target.View().state == Reboot && InFlash(image, target.View().area.flash)
  {
    hide Serving, Step, InFlash, UpdateRequest, Roomy, ProgramLog, Rounds, Missing, Reach, Leaders, AllCarried,
      LastAcked;
    PassStarts(image, target.View());
    var _, _, _ := target.Handle(Message(FwUpReq, UpdateRequest(image), GOOD));
    var ok, packets := BuildPackets(image);
    assert ids[..0] == [];
    for i := 0 to |ids|
      invariant target.Valid() && FirstPass(image, target.View(), ids[..i])
    {
      DeliverOne(image, target.View(), ids[..i], ids[i]);
      assert ids[..i + 1] == ids[..i] + [ids[i]];
      var _, _, _ := target.Handle(Message(FwUpMsg, packets[ids[i]], GOOD));
    }
    assert ids[..|ids|] == ids;
    PassEnds(image, target.View(), ids);
    accepted, rounds := CompleteUpdateWithRecovery(target, image, link);
  }
}
