/** What becomes of a message: how an answer ends its use of a slot, and that nothing is sent for it afterwards. */
module SlotOutcomes {
  import opened Bytes
  import opened SlotPool

  /** Nothing is to be sent or awaited for this slot any more: it is free, or its result waits for the application. */
  predicate Over(s: Slot) { s.state in {Free, DestAck, Failed} }

  /** A message that was sent and is not answered yet. */
  predicate Awaits(p: Pool, i: nat) { |p.slots| == SLOTS && i < SLOTS && p.slots[i].state == WaitingAck }

  /** A live slot is the one its command is looked up by. */
  lemma OwnSlot(p: Pool, i: nat)
    requires Orderly(p) && i < SLOTS && Live(p.slots[i]) && p.slots[i].command != 0
    ensures FindLive(p.slots, p.slots[i].command) == i && FIRST_COMMAND <= p.slots[i].command < COMMANDS
  {
    assert SlotKept(p.slots[i]);
    var k := FindLive(p.slots, p.slots[i].command);
    assert k <= i;
  }

  /** The use of a slot ends: with somewhere to report to, the result stays for the application; otherwise the slot is
      free at once. All other slots are as they were. */
  ghost predicate EndsUse(p: Pool, q: Pool, i: nat, state: State, error: nat, callback: bool)
    requires |p.slots| == |q.slots| == SLOTS && i < SLOTS
  {
    var s, t := p.slots[i], q.slots[i];
    && q == p.(slots := p.slots[i := t])
    && t.state == (if callback then state else Free) && Over(t)
    && (callback ==> t.command == s.command && t.error == error)
    && (!callback ==> Blank(t))
    && t.claims == s.claims && t.handed == s.handed && t.generation == s.generation
  }

  /** An acknowledgement ends the use. */
  lemma AcknowledgementEnds(p: Pool, i: nat, callback: bool)
    requires Orderly(p) && Awaits(p, i) && p.slots[i].command != 0
    ensures var s := p.slots[i];
            var q := Step(p, AckMessage(s.command, s.revision, ACK, NO_ERROR, callback));
            EndsUse(p, q, i, DestAck, NO_ERROR, callback)
  {
    OwnSlot(p, i);
  }

  /** The other side can be asked again: it could read the message, and attempts are left. */
  predicate WorthRetrying(s: Slot, code: nat) { !FormatError(code) && !FinalError(code) && s.retry < s.maxRetry }

  /** An error in the message itself will not go away; one in the state of the other side may. */
  lemma StateErrorsAreRetried(s: Slot, code: nat)
    requires NO_ERROR < code < ERROR_CODES
    ensures WorthRetrying(s, code) <==> s.retry < s.maxRetry && (code == INVALID_POINTER || code >= NO_FREE_TRANSACTION)
  {
  }

  /** A refusal ends the use with its code, unless it is worth another attempt: then the slot goes on waiting, for the
      timeout that brings that attempt. */
  lemma RefusalEnds(p: Pool, i: nat, code: nat, callback: bool)
    requires Orderly(p) && Awaits(p, i) && p.slots[i].command != 0 && NO_ERROR < code < ERROR_CODES
    ensures var s := p.slots[i];
            var q := Step(p, AckMessage(s.command, s.revision, NACK, code, callback));
            if WorthRetrying(s, code) then q == p.(slots := p.slots[i := s.(error := code)])
            else EndsUse(p, q, i, Failed, code, callback)
  {
    hide FormatError, FinalError;
    OwnSlot(p, i);
  }

  /** A complaint about the format always ends the use. */
  lemma ComplaintEnds(p: Pool, i: nat, code: nat, callback: bool)
    requires Orderly(p) && Awaits(p, i) && p.slots[i].command != 0 && NO_ERROR < code < ERROR_CODES
    ensures var s := p.slots[i];
            EndsUse(p, Step(p, FormatMessage(s.command, s.revision, code, callback)), i, Failed, code, callback)
  {
    OwnSlot(p, i);
  }

  /** An answer that says yes or no, with an error exactly if it says no. */
  predicate Consistent(kind: nat, code: nat) {
    (kind == ACK && code == NO_ERROR) || (kind == NACK && NO_ERROR < code < ERROR_CODES)
  }

  /** An answer has an effect only on the slot that awaits it, and only if it makes sense. */
  lemma StrayAnswer(p: Pool, source: nat, rev: nat, kind: nat, code: nat, callback: bool)
    requires Orderly(p)
    requires source == 0 || !Consistent(kind, code) ||
             forall i :: 0 <= i < SLOTS && Awaits(p, i) ==>
               p.slots[i].command != source || p.slots[i].revision != rev
    ensures Step(p, AckMessage(source, rev, kind, code, callback)) == p
    ensures kind == NACK ==> Step(p, FormatMessage(source, rev, code, callback)) == p
  {
    hide FormatError, FinalError;
    var i := FindLive(p.slots, source);
    if i < SLOTS {
      assert p.slots[i := p.slots[i]] == p.slots;
    }
  }

  // ---- nothing is sent for it again ----

  /** A failed submission is reported for this slot. */
  predicate Resurrects(a: Action, i: nat) {
    a.SendFailed? && (a.submit.BusUnavailable? || a.submit.QueueFull?) && a.index == i
  }

  lemma OverSubscribes(p: Pool, a: Action, i: nat)
    requires Shaped(p) && i < SLOTS && Over(p.slots[i]) && a.Subscribe?
    ensures var s, t := p.slots[i], Step(p, a).slots[i];
            t == s || (s.state == Free && t.claims == s.claims + 1)
  {
    hide Retried;
  }

  lemma OverAnswers(p: Pool, a: Action, i: nat)
    requires Shaped(p) && i < SLOTS && Over(p.slots[i]) && (a.AckMessage? || a.FormatMessage?)
    ensures Step(p, a).slots[i] == p.slots[i]
  {
    hide Acknowledged;
  }

  lemma OverOthers(p: Pool, a: Action, i: nat)
    requires Shaped(p) && i < SLOTS && Over(p.slots[i]) && !a.Subscribe? && !a.AckMessage? && !a.FormatMessage?
    requires !Resurrects(a, i)
    ensures var s, t := p.slots[i], Step(p, a).slots[i];
            t == s || (t == Cleared(s) && (a.Release? || a.SendFailed?) && a.index == i)
  {
  }

  /** Only the application, or a rejected submission, takes the result away, and only a new claim starts a new use. */
  lemma OverStays(p: Pool, a: Action, i: nat)
    requires Shaped(p) && i < SLOTS && Over(p.slots[i]) && !Resurrects(a, i)
    ensures var s, t := p.slots[i], Step(p, a).slots[i];
            || t == s
            || (t == Cleared(s) && (a.Release? || a.SendFailed?) && a.index == i)
            || (s.state == Free && t.claims == s.claims + 1)
  {
    hide Step;
    if a.Subscribe? {
      OverSubscribes(p, a, i);
    } else if a.AckMessage? || a.FormatMessage? {
      OverAnswers(p, a, i);
    } else {
      OverOthers(p, a, i);
    }
  }

  lemma MoveCounts(s: Slot, t: Slot, m: Move)
    requires MovesBy(s, t, m)
    ensures s.claims <= t.claims
  {
    hide NextGeneration;
  }

  lemma ClaimsGrow(p: Pool, a: Action, i: nat)
    requires Shaped(p) && i < SLOTS
    ensures p.slots[i].claims <= Step(p, a).slots[i].claims
  {
    hide MovesBy, Step;
    var m := StepMoves(p, a, i);
    MoveCounts(p.slots[i], Step(p, a).slots[i], m);
  }

  /** A use that is over stays over: in every run in which no failed submission is reported for its slot, the message is
      not handed to transmission again. */
  lemma {:induction false} NeverSentAgain(p: Pool, actions: seq<Action>, i: nat)
    requires Shaped(p) && i < SLOTS && Over(p.slots[i])
    requires forall n :: 0 <= n < |actions| ==> !Resurrects(actions[n], i)
    ensures var s, t := p.slots[i], Run(p, actions).slots[i];
            && s.claims <= t.claims
            && (t.claims == s.claims ==> Over(t) && t.handed == s.handed)
    decreases |actions|
  {
    hide Step, Resurrects;
    if actions == [] {
    } else {
      var n := |actions| - 1;
      NeverSentAgain(p, actions[..n], i);
      var q := Run(p, actions[..n]);
      ClaimsGrow(q, actions[n], i);
      if q.slots[i].claims == p.slots[i].claims {
        OverStays(q, actions[n], i);
      }
    }
  }

  /** The result of a use stays as it is until the application takes it. */
  lemma {:induction false} ResultStays(p: Pool, actions: seq<Action>, i: nat)
    requires Shaped(p) && i < SLOTS && p.slots[i].state in {DestAck, Failed}
    requires forall n :: 0 <= n < |actions| ==>
               !((actions[n].Release? || actions[n].SendFailed?) && actions[n].index == i)
    ensures Run(p, actions).slots[i] == p.slots[i]
    decreases |actions|
  {
    hide Step;
    if actions == [] {
    } else {
      var n := |actions| - 1;
      ResultStays(p, actions[..n], i);
      OverStays(Run(p, actions[..n]), actions[n], i);
    }
  }

  /** A message that was acknowledged is not sent again, whatever happens after it. */
  lemma AcknowledgedOnce(p: Pool, i: nat, callback: bool, actions: seq<Action>)
    requires Orderly(p) && Awaits(p, i) && p.slots[i].command != 0
    requires forall n :: 0 <= n < |actions| ==> !Resurrects(actions[n], i)
    ensures var s := p.slots[i];
            var q := Step(p, AckMessage(s.command, s.revision, ACK, NO_ERROR, callback));
            var t := Run(q, actions).slots[i];
            t.claims > s.claims || (t.claims == s.claims && Over(t) && t.handed == s.handed)
  {
    hide Step, Run, Over, Resurrects, EndsUse;
    var s := p.slots[i];
    var q := Step(p, AckMessage(s.command, s.revision, ACK, NO_ERROR, callback));
    AcknowledgementEnds(p, i, callback);
    assert Over(q.slots[i]) && q.slots[i].claims == s.claims && q.slots[i].handed == s.handed;
    NeverSentAgain(q, actions, i);
  }

  // ---- another attempt ----

  /** Time is up for a message that was not answered, or could not be sent. */
  predicate Waits(s: Slot) { s.state == WaitingAck || s.state == Queued }

  lemma TimeOutMarks(p: Pool, i: nat)
    requires Orderly(p) && i < SLOTS && Waits(p.slots[i]) && p.slots[i].command != 0
    ensures var q := Step(p, TimeOut(i));
            && q == p.(slots := p.slots[i := p.slots[i].(state := PrepareRetransmit)])
            && FindLive(q.slots, p.slots[i].command) == i
  {
    var q := Step(p, TimeOut(i));
    OwnSlot(p, i);
    StepKeepsOrder(p, TimeOut(i));
    OwnSlot(q, i);
  }

  /** Asked to send it again, the application gets the same slot while attempts are left, for the present revision;
      after the last one the use has failed. */
  lemma UnansweredIsSentAgain(p: Pool, i: nat, ack: bool, max: nat)
    requires Orderly(p) && i < SLOTS && Waits(p.slots[i]) && p.slots[i].command != 0 && p.slots[i].retry < 255
    ensures var s := p.slots[i];
            var (q, given) := DoSubscribe(Step(p, TimeOut(i)), s.command, ack, max);
            if s.retry < s.maxRetry then
              && given == Given(i, NO_ERROR)
              && q == p.(slots := p.slots[i := s.(state := WaitingTx, retry := s.retry + 1, error := NO_ERROR,
                                                  revision := p.revisions[s.command], handed := s.handed + 1)])
            else
              && given == Given(i, MAX_RETRY_REACHED)
              && q == p.(slots := p.slots[i := s.(state := Failed, retry := s.retry + 1,
                                                  error := MAX_RETRY_REACHED)])
  {
    hide Step;
    OwnSlot(p, i);
    TimeOutMarks(p, i);
  }

  /** Why failed submissions are left out above: one reported for a message that was acknowledged brings it back, and it
      is sent again. */
  lemma LateReportSendsAgain(p: Pool, i: nat, ack: bool, max: nat)
    requires Orderly(p) && i < SLOTS && p.slots[i].state == DestAck && p.slots[i].command != 0
    requires p.slots[i].retry < p.slots[i].maxRetry && p.slots[i].retry < 255
    ensures var s := p.slots[i];
            var t := Step(Step(Step(p, SendFailed(i, QueueFull)), TimeOut(i)), Subscribe(s.command, ack, max)).slots[i];
            t.state == WaitingTx && t.claims == s.claims && t.handed == s.handed + 1
  {
    hide Orderly, DoSubscribe, DoTimeOut;
    StepKeepsOrder(p, SendFailed(i, QueueFull));
    UnansweredIsSentAgain(Step(p, SendFailed(i, QueueFull)), i, ack, max);
  }

  /** An application that does not want to send it again ends the use. */
  lemma RefusedAttemptEnds(p: Pool, i: nat, callback: bool)
    requires Orderly(p) && i < SLOTS && Waits(p.slots[i]) && p.slots[i].command != 0
    ensures var q := Step(Step(p, TimeOut(i)), RetransmitRefused(i, callback));
            EndsUse(p, q, i, Failed, INVALID_RETRANSMIT, callback)
  {
  }

  // ---- what the application and the driver say ----

  /** A submission that is reported handled leaves the message with the driver, or waiting for another attempt; one
      reported otherwise leaves nothing of it. */
  lemma SubmissionMeans(p: Pool, i: nat, submit: SubmitResult)
    requires Shaped(p)
    ensures var (q, ok) := DoSendFailed(p, i, submit);
            && (ok <==> i < SLOTS && submit != InvalidMessage)
            && (i >= SLOTS ==> q == p)
            && (i < SLOTS ==> q == p.(slots := p.slots[i := q.slots[i]]))
            && (ok ==> q.slots[i] == if submit == Accepted then p.slots[i] else p.slots[i].(state := Queued))
            && (!ok && i < SLOTS ==> Blank(q.slots[i]) && q.slots[i].claims == p.slots[i].claims)
  {
    if i < SLOTS {
      assert p.slots[i := p.slots[i]] == p.slots;
    }
  }

  /** The application frees a slot, and no other. */
  lemma ReleaseFrees(p: Pool, i: nat)
    requires Shaped(p)
    ensures var q := Step(p, Release(i));
            if i < SLOTS then
              && q == p.(slots := p.slots[i := q.slots[i]]) && Blank(q.slots[i])
              && q.slots[i].claims == p.slots[i].claims && q.slots[i].generation == p.slots[i].generation
            else q == p
  {
  }

  /** A revision is a byte other than 0, and only the commands in use have one. */
  lemma RevisionIsSet(p: Pool, cmd: nat, value: nat)
    requires Shaped(p)
    ensures var q := Step(p, SetRevision(cmd, value));
            && q.slots == p.slots
            && (forall c :: 0 <= c < COMMANDS && c != cmd ==> q.revisions[c] == p.revisions[c])
            && if FIRST_COMMAND <= cmd < COMMANDS then
                 && 0 < q.revisions[cmd] < 256
                 && (q.revisions[cmd] - value) % 256 == if value % 256 == 0 then 1 else 0
               else q == p
  {
  }

  // ---- a message on its way ----

  /** What the driver reports for the message a slot holds: it was sent and now awaits its answer, or needs none; the
      bus was not to be had, and the slot waits for another attempt; or it will never be sent. */
  lemma CompletionMeans(p: Pool, i: nat, result: TxResult)
    requires Orderly(p) && i < SLOTS && p.slots[i].state == WaitingTx && p.slots[i].command != 0
    ensures var s := p.slots[i];
            var q := Step(p, TxComplete(ContextOf(s, i), result));
            match result
            case Success =>
              if s.ackRequired then q == p.(slots := p.slots[i := s.(state := WaitingAck)])
              else EndsUse(p, q, i, Free, NO_ERROR, false)
            case Recoverable => q == p.(slots := p.slots[i := s.(state := Queued)])
            case Unrecoverable => EndsUse(p, q, i, Free, NO_ERROR, false)
            case Undefined(driverError) => if driverError then EndsUse(p, q, i, Free, NO_ERROR, false) else q == p
  {
    assert SlotKept(p.slots[i]);
    assert p.slots[i := p.slots[i]] == p.slots;
  }

  /** The slot a message gets, and the context the driver carries along with it. */
  lemma MessageClaims(p: Pool, cmd: nat, ack: bool, max: nat)
    requires Inv(p) && FIRST_COMMAND <= cmd < COMMANDS && FindLive(p.slots, cmd) == SLOTS
    ensures var i := FindFree(p.slots);
            var q := Step(p, Subscribe(cmd, ack, max));
            && i < SLOTS && q == p.(slots := p.slots[i := q.slots[i]])
            && q.slots[i] == Slot(WaitingTx, cmd, ack, 0, max % 256, p.revisions[cmd], NO_ERROR,
                                  q.slots[i].generation, 1, p.slots[i].claims + 1)
  {
    hide Inv;
    InvShaped(p);
    ClaimNeverFails(p, cmd, ack, max);
  }

  lemma InvOrderly(p: Pool)
    requires Inv(p)
    ensures Orderly(p) && Shaped(p)
  {
    hide SlotKept, SlotServed;
  }

  /** A message from its claim to its acknowledgement: sent once, answered, and its slot free again. */
  lemma MessageDelivered(p: Pool, cmd: nat, max: nat)
    requires Inv(p) && FIRST_COMMAND <= cmd < COMMANDS && FindLive(p.slots, cmd) == SLOTS
    ensures FindFree(p.slots) < SLOTS
    ensures var i := FindFree(p.slots);
            var claimed := Step(p, Subscribe(cmd, true, max));
            var sent := Step(claimed, TxComplete(ContextOf(claimed.slots[i], i), Success));
            var done := Step(sent, AckMessage(cmd, p.revisions[cmd], ACK, NO_ERROR, false));
            && done == p.(slots := p.slots[i := done.slots[i]]) && done.slots[i].state == Free
            && done.slots[i].handed == 1 && done.slots[i].claims == p.slots[i].claims + 1
  {
    hide Step, Inv, Orderly;
    MessageClaims(p, cmd, true, max);
    var i := FindFree(p.slots);
    var claimed := Step(p, Subscribe(cmd, true, max));
    InvOrderly(p);
    StepKeepsOrder(p, Subscribe(cmd, true, max));
    CompletionMeans(claimed, i, Success);
    var complete := TxComplete(ContextOf(claimed.slots[i], i), Success);
    StepKeepsOrder(claimed, complete);
    AcknowledgementEnds(Step(claimed, complete), i, false);
  }
}
