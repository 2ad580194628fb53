/** A page of missing ids on its way to the host: sent, lost, sent again, and acknowledged. */
module FirmwarePages {
  import opened Bytes
  import opened Register16
  import opened FirmwareSession
  import opened FirmwareInvariant
  import opened FirmwareSafety
  import opened FirmwareImage
  import opened FirmwareIntegrity
  import opened FirmwareRecovery
  import opened FirmwareRestart
  import Crc16

  /** The session as an acknowledgement will leave it. */
  function Settled(s: Session): Session { s.(tx := s.tx.(state := TxIdle, retries := 0)) }

  /** A session of `image` in progress that has sent page `p` and waits for the acknowledgement. */
  ghost predicate Waiting(image: seq<Byte>, s: Session, p: Page) {
    && Serving(image, Settled(s)) && s.armed
    && s.tx.state != TxIdle && s.tx.sent == Some(p) && s.tx.retries <= MAX_RETRIES
    && p.pending == PageOf(s).pending && p.ids == PageOf(s).ids && p.seqNo < 256
  }

  /** The record and the flash are the same. */
  predicate SameImage(s: Session, t: Session) { t.fw == s.fw && t.area == s.area }

  lemma TxFree(image: seq<Byte>, s: Session, tx: TxLink)
    requires Serving(image, s) && tx.state == TxIdle && tx.retries == 0 && tx.frameSeq < 256
    ensures Serving(image, s.(tx := tx, armed := true))
  {
    hide Crc16.Of, Content, InFlash, ImageValidated, Live, Roomy, ProgramLog;
  }

  lemma ServingFields(image: seq<Byte>, s: Session)
    requires Serving(image, s)
    ensures s.state == InProgress && !s.crashed && s.tx.state == TxIdle && s.tx.retries == 0 && s.tx.frameSeq < 256
  {
  }

  /** The request: the first thirty missing ids are sent, and the next page will have the next number; or the attempt is
      counted as the first retry. */
  lemma RequestSends(image: seq<Byte>, s: Session, io: Io)
    requires Serving(image, s)
    ensures var o := Step(s, Message(GetLostPacketInfo, [], io));
            && o.ok && o.page == (if io.sendOk then Some(PageOf(s)) else None)
            && Waiting(image, o.next, PageOf(s))
            && var seqNo := PageOf(s).seqNo;
               o.next == s.(armed := true,
                            tx := if io.sendOk then TxLink(TxInProgress, (seqNo + 1) % 256, 0, Some(PageOf(s)))
                                  else TxLink(TxRetry, seqNo, 1, Some(PageOf(s))))
  {
    hide Serving;
    ServingFields(image, s);
    var t := Step(s, Message(GetLostPacketInfo, [], io)).next;
    TxFree(image, s, Settled(t).tx);
    assert Settled(t) == s.(tx := Settled(t).tx, armed := true);
  }

  /** While a page is out a further request is refused and changes nothing. */
  lemma RequestRefused(image: seq<Byte>, s: Session, p: Page, io: Io)
    requires Waiting(image, s, p)
    ensures Step(s, Message(GetLostPacketInfo, [], io)) == Refuse(s, UpgradeRequestFail)
  {
    hide Serving;
    ServingFields(image, Settled(s));
  }

  /** The time for an answer is up, or the host refused the page. */
  predicate AsksAgain(p: Page, e: Event) { e.TxTimeout? || (e.HostAck? && e.status == NACK && e.seqNo == p.seqNo) }

  /** Whether a frame sent in answer to this event can be handed to the bus. */
  predicate Sends(e: Event) { (e.TxTimeout? || e.HostAck?) && e.io.sendOk }

  /** Asked again, the target sends the same page again, three times at most; then the session ends. */
  lemma PageSentAgain(image: seq<Byte>, s: Session, p: Page, e: Event)
    requires Waiting(image, s, p) && AsksAgain(p, e)
    ensures var o := Step(s, e);
            if s.tx.retries < MAX_RETRIES then
              && o.ok && o.error == NoError
              && o.page == (if Sends(e) then Some(p) else None)
              && Waiting(image, o.next, p) && o.next == s.(tx := s.tx.(state := TxRetry, retries := s.tx.retries + 1))
            else o.page == None && o.next == Abort(s)
  {
    hide Serving;
    ServingFields(image, Settled(s));
    var t := Step(s, e).next;
    if s.tx.retries < MAX_RETRIES {
        assert Settled(t) == Settled(s);
    }
  }

  /** The acknowledgement of the page ends the exchange. */
  lemma PageAcknowledged(image: seq<Byte>, s: Session, p: Page, io: Io)
    requires Waiting(image, s, p)
    ensures Step(s, HostAck(ACK, p.seqNo, io)) == Accept(Settled(s)) && Serving(image, Settled(s))
  {
    hide Serving;
    ServingFields(image, Settled(s));
  }

  /** A page that arrives and is acknowledged changes nothing but the frame counter: the next one starts from the same
      first pending id. */
  lemma PageAndAck(image: seq<Byte>, s: Session)
    requires Serving(image, s)
    ensures var o := Step(s, Message(GetLostPacketInfo, [], GOOD));
            && o.page == Some(PageOf(s))
            && var t := Step(o.next, HostAck(ACK, PageOf(s).seqNo, GOOD)).next;
               Serving(image, t) && t == s.(tx := t.tx, armed := true) && PageOf(t).ids == PageOf(s).ids
  {
    hide Serving, Waiting, Step;
    RequestSends(image, s, GOOD);
    PageAcknowledged(image, Step(s, Message(GetLostPacketInfo, [], GOOD)).next, PageOf(s), GOOD);
  }

  /** An answer to another page, or one that says neither yes nor no, is ignored. */
  lemma StrayAnswer(image: seq<Byte>, s: Session, p: Page, status: nat, seqNo: nat, io: Io)
    requires Waiting(image, s, p) && (seqNo != p.seqNo || (status != ACK && status != NACK))
    ensures Step(s, HostAck(status, seqNo, io)) == Accept(s)
  {
    hide Serving;
    ServingFields(image, Settled(s));
  }

  // ---- a page asked for again and again ----

  /** The pages put on the bus along a run. */
  function PagesSent(s: Session, events: seq<Event>): seq<Page>
    decreases |events|
  {
    if events == [] then []
    else
      var n := |events| - 1;
      var o := Step(Run(s, events[..n]), events[n]);
      PagesSent(s, events[..n]) + if o.page.Some? then [o.page.value] else []
  }

  /** How many of the events can send a frame. */
  function SendCount(events: seq<Event>): nat {
    if events == [] then 0
    else SendCount(events[..|events| - 1]) + if Sends(events[|events| - 1]) then 1 else 0
  }

  function Copies(p: Page, n: nat): (ps: seq<Page>)
    ensures |ps| == n
  {
    seq(n, _ => p)
  }

  lemma CopiesSnoc(p: Page, n: nat)
    ensures Copies(p, n) + [p] == Copies(p, n + 1) && Copies(p, n) + [] == Copies(p, n)
    ensures Copies(p, 0) == []
  {
  }

  /** Asked for again and again, three times at most, a page gets onto the bus once for every time the bus takes it, the
      same page each time, and the session stays as it is. */
  lemma {:induction false} PageKeepsComing(image: seq<Byte>, s: Session, p: Page, events: seq<Event>)
    requires Waiting(image, s, p) && forall i :: 0 <= i < |events| ==> AsksAgain(p, events[i])
    requires s.tx.retries + |events| <= MAX_RETRIES
    ensures var t := Run(s, events);
            && Waiting(image, t, p) && Settled(t) == Settled(s) && t.tx.retries == s.tx.retries + |events|
            && PagesSent(s, events) == Copies(p, SendCount(events))
    decreases |events|
  {
    hide Waiting, Step, Copies, AsksAgain;
    if events == [] {
      CopiesSnoc(p, 0);
    } else {
      var n := |events| - 1;
      PageKeepsComing(image, s, p, events[..n]);
      PageSentAgain(image, Run(s, events[..n]), p, events[n]);
      CopiesSnoc(p, SendCount(events[..n]));
    }
  }

  lemma WaitingTries(image: seq<Byte>, s: Session, p: Page)
    requires Waiting(image, s, p)
    ensures s.tx.retries <= MAX_RETRIES && !s.crashed
  {
    hide Serving;
    ServingFields(image, Settled(s));
  }

  lemma SameAborted(s: Session, t: Session)
    requires Settled(s) == Settled(t)
    ensures Abort(s) == Abort(t) && s.crashed == t.crashed
  {
  }

  lemma GivenUp(image: seq<Byte>, s: Session, p: Page)
    requires Waiting(image, s, p)
    ensures Ended(Abort(s))
  {
    WaitingTries(image, s, p);
    AbortEnds(s);
  }

  /** Asked for once more, the session has ended, and nothing is sent any more. */
  lemma {:induction false} PageGivesUp(image: seq<Byte>, s: Session, p: Page, events: seq<Event>)
    requires Waiting(image, s, p) && forall i :: 0 <= i < |events| ==> AsksAgain(p, events[i])
    requires s.tx.retries <= MAX_RETRIES < s.tx.retries + |events|
    ensures Run(s, events) == Abort(s)
    ensures PagesSent(s, events) == Copies(p, SendCount(events[..MAX_RETRIES - s.tx.retries]))
    decreases |events|
  {
    hide Waiting, Step, Copies, Abort, Settled, Ended;
    var n := |events| - 1;
    WaitingTries(image, s, p);
    if s.tx.retries + n > MAX_RETRIES {
      PageGivesUp(image, s, p, events[..n]);
      GivenUp(image, s, p);
      EndedIgnores(Abort(s), events[n]);
      assert events[..n][..MAX_RETRIES - s.tx.retries] == events[..MAX_RETRIES - s.tx.retries];
    } else {
      PageKeepsComing(image, s, p, events[..n]);
      PageSentAgain(image, Run(s, events[..n]), p, events[n]);
      SameAborted(s, Run(s, events[..n]));
    }
  }
}
