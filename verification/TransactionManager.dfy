/** The message manager itself: the slots and command revisions as it updates them in place. */
module TransactionManager {
  import opened SlotPool

  /** What happens when the pass comes to a slot: whether its time is up (and its lock free), the calls made before the
      answer to the request to send again, that answer, and whether results have somewhere to go. */
  datatype Turn = Turn(expired: bool, calls: seq<Action>, dispatched: bool, callback: bool)

  /** The steps of a turn. */
  function Tracking(p: Pool, i: nat, turn: Turn): seq<Action>
    requires Shaped(p) && i < SLOTS
  {
    if !turn.expired || (p.slots[i].state != WaitingAck && p.slots[i].state != Queued) then []
    else [TimeOut(i)] + turn.calls + if turn.dispatched then [] else [RetransmitRefused(i, turn.callback)]
  }

  /** The steps of a pass over the first slots, one turn each. */
  function Pass(p: Pool, turns: seq<Turn>): seq<Action>
    requires Shaped(p) && |turns| <= SLOTS
  {
    if turns == [] then []
    else
      var n := |turns| - 1;
      var steps := Pass(p, turns[..n]);
      steps + Tracking(Run(p, steps), n, turns[n])
  }

  lemma RunOneMore(p: Pool, actions: seq<Action>, a: Action)
    requires Shaped(p)
    ensures Run(p, actions + [a]) == Step(Run(p, actions), a)
  {
    hide Step;
    assert (actions + [a])[..|actions|] == actions;
  }

  lemma TimedOut(p: Pool, i: nat)
    requires Shaped(p) && i < SLOTS && (p.slots[i].state == WaitingAck || p.slots[i].state == Queued)
    ensures Run(p, [TimeOut(i)] + []) == Put(p, i, p.slots[i].(state := PrepareRetransmit))
  {
    RunOneMore(p, [], TimeOut(i));
    assert [] + [TimeOut(i)] == [TimeOut(i)] + [];
  }

  class Manager {
    const slots: array<Slot>
    const revisions: array<nat>

    ghost predicate Valid()
      reads this
    {
      slots.Length == SLOTS && revisions.Length == COMMANDS && slots as object != revisions
    }

    ghost function View(): (p: Pool)
      reads this, slots, revisions
      requires Valid()
      ensures Shaped(p)
    {
      Pool(slots[..], revisions[..])
    }

    constructor ()
      ensures Valid() && fresh(slots) && fresh(revisions) && View() == Fresh()
    {
      slots := new Slot[SLOTS](_ => EMPTY_SLOT);
      revisions := new nat[COMMANDS](_ => 0);
      new;
      assert slots[..] == Fresh().slots && revisions[..] == Fresh().revisions;
    }

    method FindByCommand(cmd: nat) returns (i: nat)
      requires Valid()
      ensures i == FindLive(slots[..], cmd)
    {
      i := 0;
      while i < SLOTS
        invariant i <= SLOTS && forall j :: 0 <= j < i ==> !(Live(slots[j]) && slots[j].command == cmd)
      {
        if slots[i].state != Free && slots[i].state != Invalid && slots[i].command == cmd {
          break;
        }
        i := i + 1;
      }
      assert forall j :: 0 <= j < i ==> !(Live(slots[..][j]) && slots[..][j].command == cmd);
    }

    method ClaimFree() returns (i: nat)
      requires Valid()
      ensures i == FindFree(slots[..])
    {
      i := 0;
      while i < SLOTS
        invariant i <= SLOTS && forall j :: 0 <= j < i ==> slots[j].state != Free
      {
        if slots[i].state == Free {
          break;
        }
        i := i + 1;
      }
      assert forall j :: 0 <= j < i ==> slots[..][j].state != Free;
    }

    method Store(i: nat, s: Slot)
      requires Valid() && i < SLOTS
      modifies slots
      ensures View() == Put(old(View()), i, s)
    {
      slots[i] := s;
    }

    /** Frees a slot by way of `Invalid`; only its generation, and its history, stay. */
    method ResetTransaction(i: nat)
      requires Valid() && i < SLOTS
      modifies slots
      ensures View() == Put(old(View()), i, Cleared(old(slots[i])))
    {
      slots[i] := slots[i].(state := Invalid);
      slots[i] := slots[i].(command := 0, ackRequired := false, error := NO_ERROR, maxRetry := 0,
                            retry := 0, revision := 0);
      slots[i] := slots[i].(state := Free);
    }

    method Claim(j: nat, cmd: nat, ack: bool, max: nat)
      requires Valid() && j < SLOTS && cmd < COMMANDS
      modifies slots
      ensures View() == Put(old(View()), j, Claimed(old(slots[j]), cmd, ack, max, revisions[cmd]))
    {
      var generation := (slots[j].generation + 1) % GENERATIONS;
      if generation == 0 {
        generation := 1;
      }
      slots[j] := slots[j].(generation := generation, claims := slots[j].claims + 1, handed := 1);
      slots[j] := slots[j].(command := cmd, ackRequired := ack, revision := revisions[cmd], retry := 0, maxRetry := max,
                            error := NO_ERROR);
      slots[j] := slots[j].(state := WaitingTx);
    }

    method Retry(i: nat, cmd: nat) returns (r: Subscription)
      requires Valid() && i < SLOTS && cmd < COMMANDS
      modifies slots
      ensures var s := Retried(old(slots[i]), revisions[cmd]);
              && View() == Put(old(View()), i, s)
              && r == Given(i, if s.state == Failed then MAX_RETRY_REACHED else NO_ERROR)
    {
      slots[i] := slots[i].(retry := (slots[i].retry + 1) % 256);
      if slots[i].retry > slots[i].maxRetry {
        slots[i] := slots[i].(error := MAX_RETRY_REACHED);
        slots[i] := slots[i].(state := Failed);
        return Given(i, MAX_RETRY_REACHED);
      }
      slots[i] := slots[i].(revision := revisions[cmd], error := NO_ERROR);
      slots[i] := slots[i].(state := WaitingTx, handed := slots[i].handed + 1);
      return Given(i, NO_ERROR);
    }

    method SubscribeCommand(cmd: nat, ack: bool, max: nat) returns (r: Subscription)
      requires Valid()
      modifies slots
      ensures (View(), r) == DoSubscribe(old(View()), cmd, ack, max)
    {
      if cmd < FIRST_COMMAND || cmd >= COMMANDS {
        return Refused(INVALID_COMMAND);
      }
      var i := FindByCommand(cmd);
      if i == SLOTS {
        var j := ClaimFree();
        if j == SLOTS {
          return Refused(NO_FREE_TRANSACTION);
        }
        Claim(j, cmd, ack, max % 256);
        return Given(j, NO_ERROR);
      }
      if slots[i].state != PrepareRetransmit {
        return Refused(INVALID_RETRANSMIT);
      }
      r := Retry(i, cmd);
    }

    method NotifyTxComplete(c: Context, result: TxResult)
      requires Valid()
      modifies slots
      ensures View() == DoTxComplete(old(View()), c, result)
    {
      if c.generation == 0 || c.index >= SLOTS {
        return;
      }
      var i := c.index;
      if slots[i].state != WaitingTx || slots[i].command != c.command || slots[i].generation != c.generation ||
         slots[i].revision != c.revision {
        return;
      }
      match result {
        case Success =>
          if slots[i].ackRequired {
            Store(i, slots[i].(state := WaitingAck));
          } else {
            ResetTransaction(i);
          }
        case Recoverable =>
          Store(i, slots[i].(state := Queued));
        case Unrecoverable =>
          ResetTransaction(i);
        case Undefined(driverError) =>
          if driverError {
            ResetTransaction(i);
          } else {
            Store(i, slots[i]);
          }
      }
    }

    method Report(i: nat, callback: bool)
      requires Valid() && i < SLOTS
      modifies slots
      ensures View() == Put(old(View()), i, Reported(old(slots[i]), callback))
    {
      if !callback {
        ResetTransaction(i);
      } else {
        assert slots[..] == old(slots[..])[i := slots[i]];
      }
    }

    /** The second locked section: a slot that is no longer marked is left alone. */
    method RefuseRetransmit(i: nat, callback: bool)
      requires Valid() && i < SLOTS
      modifies slots
      ensures View() == Step(old(View()), RetransmitRefused(i, callback))
    {
      if slots[i].state == PrepareRetransmit {
        slots[i] := slots[i].(error := INVALID_RETRANSMIT);
        slots[i] := slots[i].(state := Failed);
        Report(i, callback);
      }
    }

    method Answer(i: nat, kind: nat, code: nat, callback: bool)
      requires Valid() && i < SLOTS
      modifies slots
      ensures View() == Put(old(View()), i, Acknowledged(old(slots[i]), kind, code, callback))
    {
      hide FormatError, FinalError;
      if (kind == ACK && code != NO_ERROR) || (kind == NACK && code == NO_ERROR) {
        Store(i, slots[i]);
        return;
      }
      var format := FormatError(code);
      slots[i] := slots[i].(error := code);
      if !format {
        if kind == ACK {
          slots[i] := slots[i].(state := DestAck);
          Report(i, callback);
          return;
        }
        if slots[i].retry < slots[i].maxRetry && !FinalError(code) {
          return;
        }
      }
      slots[i] := slots[i].(state := Failed);
      Report(i, callback);
    }

    method HandleAck(source: nat, rev: nat, kind: nat, code: nat, callback: bool)
      requires Valid()
      modifies slots
      ensures View() == DoAckMessage(old(View()), source, rev, kind, code, callback)
    {
      hide FormatError, FinalError;
      if source == 0 || source >= COMMANDS {
        return;
      }
      var i := FindByCommand(source);
      if i == SLOTS || slots[i].state != WaitingAck {
        return;
      }
      if (kind != ACK && kind != NACK) || slots[i].revision != rev || code >= ERROR_CODES {
        return;
      }
      Answer(i, kind, code, callback);
    }

    method HandleInvalidFormat(source: nat, rev: nat, code: nat, callback: bool)
      requires Valid()
      modifies slots
      ensures View() == DoFormatMessage(old(View()), source, rev, code, callback)
    {
      if source == 0 || source >= COMMANDS {
        return;
      }
      var i := FindByCommand(source);
      if i == SLOTS || slots[i].revision != rev || slots[i].state != WaitingAck || code >= ERROR_CODES ||
          code == NO_ERROR {
        return;
      }
      slots[i] := slots[i].(error := code);
      slots[i] := slots[i].(state := Failed);
      Report(i, callback);
    }

    method ManageTransmissionError(i: nat, submit: SubmitResult) returns (ok: bool)
      requires Valid()
      modifies slots
      ensures (View(), ok) == DoSendFailed(old(View()), i, submit)
    {
      if i >= SLOTS {
        return false;
      }
      match submit {
        case BusUnavailable | QueueFull =>
          slots[i] := slots[i].(state := Invalid);
          slots[i] := slots[i].(state := Queued);
          assert slots[..] == old(slots[..])[i := old(slots[i]).(state := Queued)];
          return true;
        case InvalidMessage =>
          ResetTransaction(i);
          return false;
        case Accepted =>
          return true;
      }
    }

    method UpdateRevision(cmd: nat, value: nat)
      requires Valid()
      modifies revisions
      ensures View() == Step(old(View()), SetRevision(cmd, value))
      ensures FIRST_COMMAND <= cmd < COMMANDS ==>
                0 < revisions[cmd] < 256 && (0 < value < 256 ==> revisions[cmd] == value)
    {
      if FIRST_COMMAND <= cmd < COMMANDS {
        revisions[cmd] := if value % 256 == 0 then 1 else value % 256;
      }
    }

    /** Any one call. */
    method Perform(a: Action)
      requires Valid()
      modifies slots, revisions
      ensures View() == Step(old(View()), a)
    {
      hide DoSubscribe, DoTxComplete, DoAckMessage, DoFormatMessage, DoSendFailed;
      match a {
        case Subscribe(cmd, ack, max) => var _ := SubscribeCommand(cmd, ack, max);
        case TxComplete(c, result) => NotifyTxComplete(c, result);
        case TimeOut(i) =>
          if i < SLOTS && (slots[i].state == WaitingAck || slots[i].state == Queued) {
            Store(i, slots[i].(state := PrepareRetransmit));
          }
        case RetransmitRefused(i, callback) =>
          if i < SLOTS {
            RefuseRetransmit(i, callback);
          }
        case AckMessage(source, rev, kind, code, callback) => HandleAck(source, rev, kind, code, callback);
        case FormatMessage(source, rev, code, callback) => HandleInvalidFormat(source, rev, code, callback);
        case SendFailed(i, submit) => var _ := ManageTransmissionError(i, submit);
        case Release(i) =>
          if i < SLOTS {
            ResetTransaction(i);
          }
        case SetRevision(cmd, value) => UpdateRevision(cmd, value);
      }
    }

    /** One slot in the pass over all of them. The application is asked without the lock, and may make any calls. */
    method TrackSlot(i: nat, turn: Turn)
      requires Valid() && i < SLOTS
      modifies slots, revisions
      ensures View() == Run(old(View()), Tracking(old(View()), i, turn))
    {
      hide Step, Run;
      ghost var p := View();
      RunNil(p);
      if (slots[i].state != WaitingAck && slots[i].state != Queued) || !turn.expired {
        return;
      }
      slots[i] := slots[i].(state := PrepareRetransmit);
      TimedOut(p, i);
      for k := 0 to |turn.calls|
        invariant View() == Run(p, [TimeOut(i)] + turn.calls[..k])
      {
        Perform(turn.calls[k]);
        RunOneMore(p, [TimeOut(i)] + turn.calls[..k], turn.calls[k]);
        assert [TimeOut(i)] + turn.calls[..k] + [turn.calls[k]] == [TimeOut(i)] + turn.calls[..k + 1];
      }
      assert [TimeOut(i)] + turn.calls[..|turn.calls|] == [TimeOut(i)] + turn.calls == [TimeOut(i)] + turn.calls + [];
      if !turn.dispatched {
        RefuseRetransmit(i, turn.callback);
        RunOneMore(p, [TimeOut(i)] + turn.calls, RetransmitRefused(i, turn.callback));
      }
    }

    /** One pass over all the slots. */
    method TrackMessages(turns: seq<Turn>)
      requires Valid() && |turns| == SLOTS
      modifies slots, revisions
      ensures View() == Run(old(View()), Pass(old(View()), turns))
    {
      hide Run, Tracking;
      ghost var p := View();
      RunNil(p);
      for i := 0 to SLOTS
        invariant View() == Run(p, Pass(p, turns[..i]))
      {
        assert turns[..i + 1][..i] == turns[..i];
        TrackSlot(i, turns[i]);
        RunAppend(p, Pass(p, turns[..i]), Tracking(Run(p, Pass(p, turns[..i])), i, turns[i]));
      }
      assert turns[..SLOTS] == turns;
    }
  }
}
