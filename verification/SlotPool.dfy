/** The transaction slots of the wall controller's message manager: what each call does to the pool, as a value. What
    runs under the slot's lock is one step. */
module SlotPool {
  import opened Bytes

  const SLOTS: nat := 20
  const FIRST_COMMAND: nat := 20
  const COMMANDS: nat := 25
  const ERROR_CODES: nat := 24
  const ACK: nat := 10
  const NACK: nat := 11
  const GENERATIONS: nat := 0x1_0000_0000

  datatype State = Free | Queued | Invalid | WaitingTx | WaitingAck | DestAck | Failed | PrepareRetransmit

  /** `handed` and `claims` are history: transmissions handed out since the slot was claimed, and claims of it so
      far. */
  datatype Slot = Slot(
    state: State, command: nat, ackRequired: bool, retry: nat, maxRetry: nat, revision: nat, error: nat,
    generation: nat, handed: nat, claims: nat)

  datatype Pool = Pool(slots: seq<Slot>, revisions: seq<nat>)

  /** What the driver carries along with a frame to tell whose completion it reports. */
  datatype Context = Context(generation: nat, command: nat, index: nat, revision: nat)

  datatype TxResult = Success | Recoverable | Unrecoverable | Undefined(driverError: bool)

  datatype SubmitResult = BusUnavailable | QueueFull | InvalidMessage | Accepted

  datatype Subscription = Refused(error: nat) | Given(slot: nat, error: nat)

  const NO_ERROR: nat := 0
  const INVALID_COMMAND: nat := 1
  const INVALID_POINTER: nat := 7
  const NO_FREE_TRANSACTION: nat := 14
  const MAX_RETRY_REACHED: nat := 16
  const INVALID_RETRANSMIT: nat := 19

  /** Errors by which the other side says it could not read the message at all. */
  predicate FormatError(e: nat) { e in {1, 2, 3, 4, 5, 6, 8, 10, 11, 12} }

  /** Errors after which a refused message is not worth another attempt. */
  predicate FinalError(e: nat) { e in {1, 2, 3, 4, 5, 8, 9, 10, 11, 13} }

  datatype Action =
    | Subscribe(cmd: nat, ack: bool, max: nat)
    | TxComplete(context: Context, result: TxResult)
    | TimeOut(index: nat)
    | RetransmitRefused(index: nat, callback: bool)
    | AckMessage(source: nat, rev: nat, kind: nat, code: nat, callback: bool)
    | FormatMessage(source: nat, rev: nat, code: nat, callback: bool)
    | SendFailed(index: nat, submit: SubmitResult)
    | Release(index: nat)
    | SetRevision(cmd: nat, value: nat)

  predicate Live(s: Slot) { s.state != Free && s.state != Invalid }

  function Cleared(s: Slot): Slot {
    s.(state := Free, command := 0, ackRequired := false, retry := 0, maxRetry := 0, revision := 0, error := NO_ERROR)
  }

  ghost predicate Shaped(p: Pool) { |p.slots| == SLOTS && |p.revisions| == COMMANDS }

  function Put(p: Pool, i: nat, s: Slot): (q: Pool)
    requires i < |p.slots|
    ensures |q.slots| == |p.slots| && q.revisions == p.revisions
  {
    p.(slots := p.slots[i := s])
  }

  /** The first live slot of a command, or the number of slots. */
  function FindLive(slots: seq<Slot>, cmd: nat): (i: nat)
    ensures i <= |slots| && (i < |slots| ==> Live(slots[i]) && slots[i].command == cmd)
    ensures forall j :: 0 <= j < i ==> !(Live(slots[j]) && slots[j].command == cmd)
  {
    if slots == [] then 0
    else if Live(slots[0]) && slots[0].command == cmd then 0
    else 1 + FindLive(slots[1..], cmd)
  }

  function FindFree(slots: seq<Slot>): (i: nat)
    ensures i <= |slots| && (i < |slots| ==> slots[i].state == Free)
    ensures forall j :: 0 <= j < i ==> slots[j].state != Free
  {
    if slots == [] then 0 else if slots[0].state == Free then 0 else 1 + FindFree(slots[1..])
  }

  /** The generation after `g`; 0 is left out. */
  function NextGeneration(g: nat): (n: nat)
    ensures 0 < n < GENERATIONS
  {
    var n := (g + 1) % GENERATIONS;
    if n == 0 then 1 else n
  }

  function Claimed(s: Slot, cmd: nat, ack: bool, max: nat, revision: nat): Slot {
    s.(state := WaitingTx, command := cmd, ackRequired := ack, retry := 0, maxRetry := max, revision := revision,
       error := NO_ERROR, generation := NextGeneration(s.generation), handed := 1, claims := s.claims + 1)
  }

  /** One more attempt, counted in a byte. */
  function Retried(s: Slot, revision: nat): Slot {
    var retry := (s.retry + 1) % 256;
    if retry > s.maxRetry then s.(retry := retry, state := Failed, error := MAX_RETRY_REACHED)
    else s.(retry := retry, state := WaitingTx, revision := revision, error := NO_ERROR, handed := s.handed + 1)
  }

  function DoSubscribe(p: Pool, cmd: nat, ack: bool, max: nat): (r: (Pool, Subscription))
    requires Shaped(p)
    ensures Shaped(r.0)
  {
    if cmd < FIRST_COMMAND || cmd >= COMMANDS then (p, Refused(INVALID_COMMAND))
    else
      var i := FindLive(p.slots, cmd);
      if i == SLOTS then
        var j := FindFree(p.slots);
        if j == SLOTS then (p, Refused(NO_FREE_TRANSACTION))
        else (Put(p, j, Claimed(p.slots[j], cmd, ack, max % 256, p.revisions[cmd])), Given(j, NO_ERROR))
      else if p.slots[i].state != PrepareRetransmit then (p, Refused(INVALID_RETRANSMIT))
      else
        var s := Retried(p.slots[i], p.revisions[cmd]);
        (Put(p, i, s), Given(i, if s.state == Failed then MAX_RETRY_REACHED else NO_ERROR))
  }

  predicate Matches(s: Slot, c: Context) {
    s.state == WaitingTx && s.command == c.command && s.generation == c.generation && s.revision == c.revision
  }

  function Completed(s: Slot, result: TxResult): Slot {
    match result
    case Success => if s.ackRequired then s.(state := WaitingAck) else Cleared(s)
    case Recoverable => s.(state := Queued)
    case Unrecoverable => Cleared(s)
    case Undefined(driverError) => if driverError then Cleared(s) else s
  }

  function DoTxComplete(p: Pool, c: Context, result: TxResult): (q: Pool)
    requires Shaped(p)
    ensures Shaped(q)
  {
    if c.generation == 0 || c.index >= SLOTS || !Matches(p.slots[c.index], c) then p
    else Put(p, c.index, Completed(p.slots[c.index], result))
  }

  /** A result goes to the application, which frees the slot later; without one it is freed at once. */
  function Reported(s: Slot, callback: bool): Slot { if callback then s else Cleared(s) }

  /** A wait that took too long: the slot is marked, and the application is asked to send again. */
  function DoTimeOut(p: Pool, i: nat): (q: Pool)
    requires Shaped(p)
    ensures Shaped(q)
  {
    if i >= SLOTS || (p.slots[i].state != WaitingAck && p.slots[i].state != Queued) then p
    else Put(p, i, p.slots[i].(state := PrepareRetransmit))
  }

  /** The application would not: if the slot is still marked, it failed. */
  function DoRefused(p: Pool, i: nat, callback: bool): (q: Pool)
    requires Shaped(p)
    ensures Shaped(q)
  {
    if i >= SLOTS || p.slots[i].state != PrepareRetransmit then p
    else Put(p, i, Reported(p.slots[i].(state := Failed, error := INVALID_RETRANSMIT), callback))
  }

  /** What an acknowledgement does to the slot it is for. */
  function Acknowledged(s: Slot, kind: nat, code: nat, callback: bool): Slot {
    if (kind == ACK && code != NO_ERROR) || (kind == NACK && code == NO_ERROR) then s
    else if FormatError(code) then Reported(s.(error := code, state := Failed), callback)
    else if kind == ACK then Reported(s.(error := code, state := DestAck), callback)
    else if s.retry < s.maxRetry && !FinalError(code) then s.(error := code)
    else Reported(s.(error := code, state := Failed), callback)
  }

  function DoAckMessage(p: Pool, source: nat, rev: nat, kind: nat, code: nat, callback: bool): (q: Pool)
    requires Shaped(p)
    ensures Shaped(q)
  {
    if source == 0 || source >= COMMANDS then p
    else
      var i := FindLive(p.slots, source);
      if i == SLOTS || p.slots[i].state != WaitingAck then p
      else if (kind != ACK && kind != NACK) || p.slots[i].revision != rev || code >= ERROR_CODES then p
      else Put(p, i, Acknowledged(p.slots[i], kind, code, callback))
  }

  function DoFormatMessage(p: Pool, source: nat, rev: nat, code: nat, callback: bool): (q: Pool)
    requires Shaped(p)
    ensures Shaped(q)
  {
    if source == 0 || source >= COMMANDS then p
    else
      var i := FindLive(p.slots, source);
      if i == SLOTS || p.slots[i].revision != rev || p.slots[i].state != WaitingAck then p
      else if code == NO_ERROR || code >= ERROR_CODES then p
      else Put(p, i, Reported(p.slots[i].(error := code, state := Failed), callback))
  }

  function DoSendFailed(p: Pool, i: nat, submit: SubmitResult): (r: (Pool, bool))
    requires Shaped(p)
    ensures Shaped(r.0)
  {
    if i >= SLOTS then (p, false)
    else
      match submit
      case BusUnavailable | QueueFull => (Put(p, i, p.slots[i].(state := Queued)), true)
      case InvalidMessage => (Put(p, i, Cleared(p.slots[i])), false)
      case Accepted => (p, true)
  }

  function Step(p: Pool, a: Action): (q: Pool)
    requires Shaped(p)
    ensures Shaped(q)
  {
    match a
    case Subscribe(cmd, ack, max) => DoSubscribe(p, cmd, ack, max).0
    case TxComplete(c, result) => DoTxComplete(p, c, result)
    case TimeOut(i) => DoTimeOut(p, i)
    case RetransmitRefused(i, callback) => DoRefused(p, i, callback)
    case AckMessage(source, rev, kind, code, callback) => DoAckMessage(p, source, rev, kind, code, callback)
    case FormatMessage(source, rev, code, callback) => DoFormatMessage(p, source, rev, code, callback)
    case SendFailed(i, submit) => DoSendFailed(p, i, submit).0
    case Release(i) => if i < SLOTS then Put(p, i, Cleared(p.slots[i])) else p
    case SetRevision(cmd, value) =>
      if cmd < FIRST_COMMAND || cmd >= COMMANDS then p
      else p.(revisions := p.revisions[cmd := if value % 256 == 0 then 1 else value % 256])
  }

  function Run(p: Pool, actions: seq<Action>): (q: Pool)
    requires Shaped(p)
    ensures Shaped(q)
    decreases |actions|
  {
    if actions == [] then p else Step(Run(p, actions[..|actions| - 1]), actions[|actions| - 1])
  }

  const EMPTY_SLOT: Slot := Slot(Free, 0, false, 0, 0, 0, 0, 0, 0, 0)

  /** The pool after initialisation. */
  function Fresh(): (p: Pool)
    ensures Shaped(p)
  {
    Pool(seq(SLOTS, _ => EMPTY_SLOT), seq(COMMANDS, _ => 0))
  }

  // ---- what every call keeps ----

  /** The generation a slot has after `n` claims. */
  function GenerationOf(n: nat): nat { if n == 0 then 0 else (n - 1) % (GENERATIONS - 1) + 1 }

  /** Nothing is left of the last use but the generation and the history. */
  predicate Blank(s: Slot) { s == Slot(Free, 0, false, 0, 0, 0, NO_ERROR, s.generation, s.handed, s.claims) }

  /** A slot that is free is blank; one that names a command was claimed for it. The generation counts the claims. */
  ghost predicate SlotKept(s: Slot) {
    && s.state != Invalid && (s.state == Free ==> Blank(s))
    && s.generation == GenerationOf(s.claims)
    && (s.command != 0 ==> FIRST_COMMAND <= s.command < COMMANDS && s.claims > 0)
  }

  /** While it is live a slot is somebody's: it has a command, and has been handed out once per attempt and never more
      often than was asked for. */
  ghost predicate SlotServed(s: Slot) {
    Live(s) ==>
      && s.command != 0 && s.maxRetry < 256
      && (s.maxRetry < 255 ==>
            || (s.retry <= s.maxRetry && s.handed == 1 + s.retry)
            || (s.retry == s.maxRetry + 1 && s.handed == 1 + s.maxRetry && s.state == Failed))
  }

  ghost predicate OnePerCommand(slots: seq<Slot>) {
    forall i, j :: 0 <= i < j < |slots| && Live(slots[i]) && Live(slots[j]) && slots[i].command != 0 ==>
      slots[i].command != slots[j].command
  }

  /** What nothing breaks: a command has one live slot at most, and slots are well kept. */
  ghost predicate Orderly(p: Pool) {
    Shaped(p) && (forall i :: 0 <= i < SLOTS ==> SlotKept(p.slots[i])) && OnePerCommand(p.slots)
  }

  ghost predicate Inv(p: Pool) {
    Orderly(p) && forall i :: 0 <= i < SLOTS ==> SlotServed(p.slots[i])
  }

  /** A failed submission is reported for a slot in use that has not run out of attempts. */
  ghost predicate Allowed(p: Pool, a: Action) {
    a.SendFailed? && (a.submit.BusUnavailable? || a.submit.QueueFull?) && a.index < SLOTS == |p.slots| ==>
      var s := p.slots[a.index];
      Live(s) && (s.maxRetry < 255 ==> s.retry <= s.maxRetry)
  }

  /** Counting on in steps of one, the remainder goes up by one, or back to 0. */
  lemma NextRemainder(k: nat)
    ensures var r := k % 0xFFFF_FFFF;
            (k + 1) % 0xFFFF_FFFF == if r == 0xFFFF_FFFE then 0 else r + 1
  {
    assert k == 0xFFFF_FFFF * (k / 0xFFFF_FFFF) + k % 0xFFFF_FFFF;
  }

  lemma NextOfSmall(g: nat)
    requires 0 < g < GENERATIONS
    ensures NextGeneration(g) == if g == 0xFFFF_FFFF then 1 else g + 1
  {
  }

  lemma NextGenerationOf(n: nat)
    ensures NextGeneration(GenerationOf(n)) == GenerationOf(n + 1)
  {
    if n > 0 {
      NextRemainder(n - 1);
      NextOfSmall(GenerationOf(n));
    }
  }

  // ---- one slot in one call ----

  /** What a call does to a slot. */
  datatype Move =
    | Stay | Claim(cmd: nat, ack: bool, max: nat, revision: nat) | Retry(revision: nat) | Clear | Mark | Requeue

  ghost predicate MovesBy(s: Slot, t: Slot, m: Move) {
    match m
    case Stay => t == s
    case Claim(cmd, ack, max, revision) =>
      s.state == Free && FIRST_COMMAND <= cmd < COMMANDS && max < 256 && t == Claimed(s, cmd, ack, max, revision)
    case Retry(revision) => s.state == PrepareRetransmit && t == Retried(s, revision)
    case Clear => t == Cleared(s)
    case Mark => Live(s) && s.state != Failed && Live(t) && t == s.(state := t.state, error := t.error)
    case Requeue => t == s.(state := Queued)
  }

  /** Whose move it is: claims are for commands that have no slot, retries for those that have, and only a failed
      submission puts a slot back in the queue. */
  ghost predicate Entitled(p: Pool, a: Action, i: nat, m: Move)
    requires Shaped(p)
  {
    && (m.Claim? ==> a.Subscribe? && m.cmd == a.cmd && FindLive(p.slots, a.cmd) == SLOTS && FindFree(p.slots) == i)
    && (m.Retry? ==> a.Subscribe? && FIRST_COMMAND <= a.cmd < COMMANDS && FindLive(p.slots, a.cmd) == i)
    && (m.Requeue? <==> a.SendFailed? && (a.submit.BusUnavailable? || a.submit.QueueFull?) && a.index == i)
  }

  lemma SubscribeMoves(p: Pool, a: Action, i: nat) returns (m: Move)
    requires Shaped(p) && a.Subscribe? && i < SLOTS
    ensures MovesBy(p.slots[i], Step(p, a).slots[i], m) && Entitled(p, a, i, m)
  {
    hide Claimed, Retried;
    m := Stay;
    if FIRST_COMMAND <= a.cmd < COMMANDS {
      var k := FindLive(p.slots, a.cmd);
      if k == SLOTS && FindFree(p.slots) == i {
        m := Claim(a.cmd, a.ack, a.max % 256, p.revisions[a.cmd]);
      } else if k == i && p.slots[i].state == PrepareRetransmit {
        m := Retry(p.revisions[a.cmd]);
      }
    }
  }

  /** A slot in use is marked, cleared or left alone. */
  lemma MarkedOrCleared(s: Slot, t: Slot) returns (m: Move)
    requires t == s || t == Cleared(s) ||
             (Live(s) && s.state != Failed && Live(t) && t == s.(state := t.state, error := t.error))
    ensures MovesBy(s, t, m) && (m == Stay || m == Clear || m == Mark)
  {
    m := if t == s then Stay else if t == Cleared(s) then Clear else Mark;
  }

  lemma AnswerMoves(p: Pool, a: Action, i: nat) returns (m: Move)
    requires Shaped(p) && (a.AckMessage? || a.FormatMessage?) && i < SLOTS
    ensures MovesBy(p.slots[i], Step(p, a).slots[i], m) && Entitled(p, a, i, m)
  {
    hide FormatError, FinalError, MovesBy;
    m := MarkedOrCleared(p.slots[i], Step(p, a).slots[i]);
  }

  lemma RequeueMoves(s: Slot)
    ensures MovesBy(s, s.(state := Queued), Requeue)
  {
  }

  lemma OtherMoves(p: Pool, a: Action, i: nat) returns (m: Move)
    requires Shaped(p) && !a.Subscribe? && !a.AckMessage? && !a.FormatMessage? && i < SLOTS
    ensures MovesBy(p.slots[i], Step(p, a).slots[i], m) && Entitled(p, a, i, m)
  {
    hide MovesBy;
    if a.SendFailed? && (a.submit.BusUnavailable? || a.submit.QueueFull?) && a.index == i {
      m := Requeue;
      assert MovesBy(p.slots[i], Step(p, a).slots[i], m) by { RequeueMoves(p.slots[i]); }
    } else {
      m := MarkedOrCleared(p.slots[i], Step(p, a).slots[i]);
    }
  }

  lemma StepMoves(p: Pool, a: Action, i: nat) returns (m: Move)
    requires Shaped(p) && i < SLOTS
    ensures MovesBy(p.slots[i], Step(p, a).slots[i], m) && Entitled(p, a, i, m)
  {
    hide Step, MovesBy, Entitled;
    if a.Subscribe? {
      m := SubscribeMoves(p, a, i);
    } else if a.AckMessage? || a.FormatMessage? {
      m := AnswerMoves(p, a, i);
    } else {
      m := OtherMoves(p, a, i);
    }
  }

  // ---- what every run keeps ----

  lemma MoveKeepsGeneration(s: Slot, t: Slot, m: Move)
    requires MovesBy(s, t, m) && s.generation == GenerationOf(s.claims)
    ensures t.generation == GenerationOf(t.claims) && s.claims <= t.claims
  {
    hide GenerationOf, NextGeneration;
    NextGenerationOf(s.claims);
  }

  lemma MoveKeeps(s: Slot, t: Slot, m: Move)
    requires MovesBy(s, t, m) && SlotKept(s)
    ensures SlotKept(t)
    ensures !m.Claim? && Live(t) && t.command != 0 ==> Live(s) && s.command == t.command
  {
    hide GenerationOf, NextGeneration;
    MoveKeepsGeneration(s, t, m);
  }

  lemma ClaimNames(s: Slot, t: Slot, m: Move)
    requires MovesBy(s, t, m) && m.Claim?
    ensures t.command == m.cmd != 0
  {
  }

  lemma PairStaysApart(p: Pool, a: Action, i: nat, j: nat)
    requires Orderly(p) && i < j < SLOTS
    requires var q := Step(p, a);
             Live(q.slots[i]) && Live(q.slots[j]) && q.slots[i].command != 0
    ensures Step(p, a).slots[i].command != Step(p, a).slots[j].command
  {
    hide Step, MovesBy, SlotKept;
    var q := Step(p, a);
    var m := StepMoves(p, a, i);
    var n := StepMoves(p, a, j);
    assert SlotKept(p.slots[i]) && SlotKept(p.slots[j]);
    MoveKeeps(p.slots[i], q.slots[i], m);
    MoveKeeps(p.slots[j], q.slots[j], n);
    if m.Claim? {
      ClaimNames(p.slots[i], q.slots[i], m);
    }
    if n.Claim? {
      ClaimNames(p.slots[j], q.slots[j], n);
    }
  }

  /** Every call, a failed submission reported for any slot included, keeps the order. */
  lemma StepKeepsOrder(p: Pool, a: Action)
    requires Orderly(p)
    ensures Orderly(Step(p, a))
  {
    hide Step, MovesBy, SlotKept;
    var q := Step(p, a);
    forall i | 0 <= i < SLOTS
      ensures SlotKept(q.slots[i])
    {
      var m := StepMoves(p, a, i);
      MoveKeeps(p.slots[i], q.slots[i], m);
    }
    forall i, j | 0 <= i < j < SLOTS && Live(q.slots[i]) && Live(q.slots[j]) && q.slots[i].command != 0
      ensures q.slots[i].command != q.slots[j].command
    {
      PairStaysApart(p, a, i, j);
    }
  }

  lemma OrderlyShaped(p: Pool)
    requires Orderly(p)
    ensures Shaped(p)
  {
  }

  /** In every run, whatever is reported in it: a legal command has one live slot at most. */
  lemma {:induction false} RunKeepsOrder(p: Pool, actions: seq<Action>)
    requires Orderly(p)
    ensures Orderly(Run(p, actions))
    decreases |actions|
  {
    hide Orderly, Step;
    OrderlyShaped(p);
    if actions == [] {
    } else {
      var n := |actions| - 1;
      RunKeepsOrder(p, actions[..n]);
      StepKeepsOrder(Run(p, actions[..n]), actions[n]);
    }
  }

  // ---- what runs keep in which no failed submission comes too late ----

  lemma MoveServes(s: Slot, t: Slot, m: Move)
    requires MovesBy(s, t, m) && SlotKept(s) && SlotServed(s)
    ensures SlotServed(t) <==> (m == Requeue ==> Live(s) && (s.maxRetry < 255 ==> s.retry <= s.maxRetry))
  {
    hide GenerationOf, NextGeneration;
  }

  lemma SlotWellKept(p: Pool, i: nat)
    requires Orderly(p) && i < SLOTS
    ensures Shaped(p) && SlotKept(p.slots[i])
  {
  }

  /** Slots also stay served: every call keeps this, but for a failed submission reported for a slot that it can no
      longer be about. */
  lemma StepKeepsInv(p: Pool, a: Action)
    requires Inv(p)
    ensures Inv(Step(p, a)) <==> Allowed(p, a)
  {
    hide Orderly, Step, MovesBy, SlotKept, SlotServed;
    OrderlyShaped(p);
    StepKeepsOrder(p, a);
    var q := Step(p, a);
    forall i | 0 <= i < SLOTS
      ensures SlotServed(q.slots[i]) <==> (a.SendFailed? && a.index == i ==> Allowed(p, a))
    {
      SlotWellKept(p, i);
      var m := StepMoves(p, a, i);
      MoveServes(p.slots[i], q.slots[i], m);
    }
    if !Allowed(p, a) {
      assert !SlotServed(q.slots[a.index]);
    }
  }

  /** A submission reported failed for a slot that is no longer in use, or has used up its attempts, brings it back. */
  lemma SendFailedKeepsIff(p: Pool, i: nat, submit: SubmitResult)
    requires Inv(p)
    ensures Inv(DoSendFailed(p, i, submit).0) <==> Allowed(p, SendFailed(i, submit))
  {
    hide Inv, Allowed;
    StepKeepsInv(p, SendFailed(i, submit));
  }

  /** Every report of a failed submission comes while it can still be about its slot. */
  ghost predicate AllAllowed(p: Pool, actions: seq<Action>)
    requires Shaped(p)
    decreases |actions|
  {
    actions == [] ||
    (var n := |actions| - 1; AllAllowed(p, actions[..n]) && Allowed(Run(p, actions[..n]), actions[n]))
  }

  lemma RunNil(p: Pool)
    requires Shaped(p)
    ensures Run(p, []) == p
  {
  }

  lemma RunSnoc(p: Pool, actions: seq<Action>)
    requires Shaped(p) && actions != []
    ensures Run(p, actions) == Step(Run(p, actions[..|actions| - 1]), actions[|actions| - 1])
  {
    hide Step;
  }

  lemma InvShaped(p: Pool)
    requires Inv(p)
    ensures Shaped(p)
  {
  }

  /** The invariant holds all along a run exactly when it has no report of that kind. */
  lemma {:induction false} RunKeepsInv(p: Pool, actions: seq<Action>)
    requires Inv(p)
    ensures AllAllowed(p, actions) <==> forall n :: 0 <= n <= |actions| ==> Inv(Run(p, actions[..n]))
    ensures AllAllowed(p, actions) ==> Inv(Run(p, actions))
    decreases |actions|
  {
    hide Inv, Allowed, Step, Run;
    InvShaped(p);
    assert actions[..|actions|] == actions;
    if actions == [] {
      assert Run(p, []) == p by { RunNil(p); }
    } else {
      var n := |actions| - 1;
      RunKeepsInv(p, actions[..n]);
      RunSnoc(p, actions);
      assert forall k :: 0 <= k <= n ==> actions[..n][..k] == actions[..k];
      if Inv(Run(p, actions[..n])) {
        StepKeepsInv(Run(p, actions[..n]), actions[n]);
      }
    }
  }

  lemma FreshIsWell()
    ensures Inv(Fresh())
  {
  }

  // ---- claiming ----

  /** The commands of the first `n` slots that are live. */
  ghost function LiveCommands(slots: seq<Slot>): set<nat> {
    set i | 0 <= i < |slots| && Live(slots[i]) :: slots[i].command
  }

  lemma {:induction false} LiveCount(slots: seq<Slot>)
    requires OnePerCommand(slots) && forall i :: 0 <= i < |slots| ==> Live(slots[i]) && slots[i].command != 0
    ensures |LiveCommands(slots)| == |slots|
  {
    if slots == [] {
    } else {
      var n := |slots| - 1;
      LiveCount(slots[..n]);
      assert LiveCommands(slots) == LiveCommands(slots[..n]) + {slots[n].command};
      assert slots[n].command !in LiveCommands(slots[..n]);
    }
  }

  lemma {:induction false} FewCommands(cs: set<nat>, lo: nat, hi: nat)
    requires lo <= hi && forall c :: c in cs ==> lo <= c < hi
    ensures |cs| <= hi - lo
    decreases hi - lo
  {
    if lo == hi {
      assert cs == {};
    } else {
      FewCommands(cs - {hi - 1}, lo, hi - 1);
    }
  }

  lemma AllLive(slots: seq<Slot>)
    requires FindFree(slots) == |slots| && forall i :: 0 <= i < |slots| ==> slots[i].state != Invalid
    ensures forall i :: 0 <= i < |slots| ==> Live(slots[i])
  {
  }

  /** Five commands cannot fill twenty slots: a claim always finds a free one. */
  lemma ClaimNeverFails(p: Pool, cmd: nat, ack: bool, max: nat)
    requires Inv(p)
    ensures DoSubscribe(p, cmd, ack, max).1 != Refused(NO_FREE_TRANSACTION)
    ensures FIRST_COMMAND <= cmd < COMMANDS && FindLive(p.slots, cmd) == SLOTS ==>
              DoSubscribe(p, cmd, ack, max).1 == Given(FindFree(p.slots), NO_ERROR)
  {
    if FindFree(p.slots) == SLOTS {
      AllLive(p.slots);
      LiveCount(p.slots);
      FewCommands(LiveCommands(p.slots), FIRST_COMMAND, COMMANDS);
      assert false;
    }
  }

  // ---- attempts ----

  /** No message was handed out more often than asked for. */
  ghost predicate Within(s: Slot) {
    Live(s) && s.command != 0 && s.maxRetry < 255 ==> 0 < s.handed <= 1 + s.maxRetry
  }

  ghost predicate AllWithin(p: Pool)
    requires Shaped(p)
  {
    forall i :: 0 <= i < SLOTS ==> Within(p.slots[i])
  }

  /** The message was handed out once, and once more for each retry up to the limit. */
  ghost predicate Counted(s: Slot) {
    Live(s) && s.command != 0 && s.maxRetry < 255 ==> s.retry < 256 && s.handed == 1 + Min(s.retry, s.maxRetry)
  }

  ghost predicate Tallied(p: Pool) {
    Orderly(p) && forall i :: 0 <= i < SLOTS ==> Counted(p.slots[i])
  }

  /** A retry at which the byte that counts them goes from 255 back to 0, though fewer were asked for. */
  ghost predicate WrapsCount(p: Pool, a: Action)
    requires Shaped(p)
  {
    && a.Subscribe? && FIRST_COMMAND <= a.cmd < COMMANDS
    && var i := FindLive(p.slots, a.cmd);
       i < SLOTS && p.slots[i].state == PrepareRetransmit && p.slots[i].retry == 255 && p.slots[i].maxRetry < 255
  }

  lemma MoveCounts(s: Slot, t: Slot, m: Move)
    requires MovesBy(s, t, m) && SlotKept(s) && Counted(s)
    ensures if m.Retry? && s.command != 0 && s.retry == 255 && s.maxRetry < 255 then !Within(t) else Counted(t)
  {
    hide GenerationOf, NextGeneration;
  }

  lemma CountedWithin(s: Slot)
    requires Counted(s)
    ensures Within(s)
  {
  }

  lemma RetryState(s: Slot, t: Slot, m: Move)
    requires MovesBy(s, t, m) && m.Retry?
    ensures s.state == PrepareRetransmit
  {
  }

  lemma RetryMoves(p: Pool, a: Action)
    requires Shaped(p) && WrapsCount(p, a)
    ensures var i := FindLive(p.slots, a.cmd);
            MovesBy(p.slots[i], Step(p, a).slots[i], Retry(p.revisions[a.cmd])) && p.slots[i].command == a.cmd
  {
    hide Retried;
  }

  /** Only a retry that wraps the count hands a message out too often. */
  lemma StepKeepsCount(p: Pool, a: Action)
    requires Tallied(p)
    ensures if WrapsCount(p, a) then !AllWithin(Step(p, a)) else Tallied(Step(p, a))
  {
    hide Orderly, Step, MovesBy, SlotKept, Counted, Within;
    OrderlyShaped(p);
    StepKeepsOrder(p, a);
    var q := Step(p, a);
    if WrapsCount(p, a) {
      var i := FindLive(p.slots, a.cmd);
      SlotWellKept(p, i);
      RetryMoves(p, a);
      MoveCounts(p.slots[i], q.slots[i], Retry(p.revisions[a.cmd]));
      assert !Within(q.slots[i]);
    } else {
      forall i | 0 <= i < SLOTS
        ensures Counted(q.slots[i])
      {
        SlotWellKept(p, i);
        var m := StepMoves(p, a, i);
        if m.Retry? {
          RetryState(p.slots[i], q.slots[i], m);
        }
        MoveCounts(p.slots[i], q.slots[i], m);
      }
    }
  }

  lemma RunPrefix(p: Pool, actions: seq<Action>, n: nat)
    requires Shaped(p) && n < |actions|
    ensures Run(p, actions[..n + 1]) == Step(Run(p, actions[..n]), actions[n])
  {
    hide Run, Step;
    RunSnoc(p, actions[..n + 1]);
    assert actions[..n + 1][..n] == actions[..n];
  }

  lemma {:induction false} CountUpTo(p: Pool, actions: seq<Action>, n: nat)
    requires Tallied(p) && Shaped(p) && n <= |actions|
    requires forall i :: 0 <= i < n ==> !WrapsCount(Run(p, actions[..i]), actions[i])
    ensures Tallied(Run(p, actions[..n]))
    decreases n
  {
    hide Tallied, Step, WrapsCount, Run;
    if n == 0 {
      assert actions[..0] == [];
      RunNil(p);
    } else {
      CountUpTo(p, actions, n - 1);
      RunPrefix(p, actions, n - 1);
      StepKeepsCount(Run(p, actions[..n - 1]), actions[n - 1]);
    }
  }

  lemma TalliedWithin(p: Pool)
    requires Tallied(p)
    ensures Shaped(p) && AllWithin(p)
  {
    hide Counted, Within;
    forall i | 0 <= i < SLOTS
      ensures Within(p.slots[i])
    {
      CountedWithin(p.slots[i]);
    }
  }

  lemma {:induction false} FirstWrap(p: Pool, actions: seq<Action>, k: nat) returns (n: nat)
    requires Shaped(p) && k < |actions| && WrapsCount(Run(p, actions[..k]), actions[k])
    ensures n <= k && WrapsCount(Run(p, actions[..n]), actions[n])
    ensures forall i :: 0 <= i < n ==> !WrapsCount(Run(p, actions[..i]), actions[i])
  {
    hide WrapsCount, Run;
    n := k;
    if exists i :: 0 <= i < k && WrapsCount(Run(p, actions[..i]), actions[i]) {
      var i :| 0 <= i < k && WrapsCount(Run(p, actions[..i]), actions[i]);
      n := FirstWrap(p, actions, i);
    }
  }

  /** A message is handed to transmission once, and once more per retry that was asked for, never oftener: all along a
      run exactly when no retry in it wraps the byte that counts them. */
  lemma AttemptsBoundedIff(p: Pool, actions: seq<Action>)
    requires Tallied(p) && Shaped(p)
    ensures (forall n :: 0 <= n <= |actions| ==> AllWithin(Run(p, actions[..n]))) <==>
            (forall n :: 0 <= n < |actions| ==> !WrapsCount(Run(p, actions[..n]), actions[n]))
  {
    hide Tallied, AllWithin, Step, WrapsCount, Run;
    if forall n :: 0 <= n < |actions| ==> !WrapsCount(Run(p, actions[..n]), actions[n]) {
      forall n | 0 <= n <= |actions|
        ensures AllWithin(Run(p, actions[..n]))
      {
        CountUpTo(p, actions, n);
        TalliedWithin(Run(p, actions[..n]));
      }
    } else {
      var k :| 0 <= k < |actions| && WrapsCount(Run(p, actions[..k]), actions[k]);
      var n := FirstWrap(p, actions, k);
      CountUpTo(p, actions, n);
      StepKeepsCount(Run(p, actions[..n]), actions[n]);
      RunPrefix(p, actions, n);
      assert !AllWithin(Run(p, actions[..n + 1]));
    }
  }

  lemma InvWithin(p: Pool)
    requires Inv(p)
    ensures Shaped(p) && AllWithin(p)
  {
    hide SlotKept;
  }

  lemma FreshTallied()
    ensures Tallied(Fresh())
  {
  }

  /** In a run without reports that come too late the count never wraps. */
  lemma AttemptsBounded(actions: seq<Action>, n: nat)
    requires AllAllowed(Fresh(), actions) && n <= |actions|
    ensures AllWithin(Run(Fresh(), actions[..n]))
  {
    hide Run, Inv, Fresh, AllWithin;
    FreshIsWell();
    RunKeepsInv(Fresh(), actions);
    InvWithin(Run(Fresh(), actions[..n]));
  }

  /** One round of an unanswered message: the driver reports it sent, no answer comes, and it is handed out again. */
  function Unanswered(s: Slot): seq<Action> {
    [TxComplete(Context(s.generation, s.command, 0, s.revision), Success), TimeOut(0), Subscribe(s.command, true, 255)]
  }

  function RoundSlot(n: nat): Slot { Slot(WaitingTx, 20, true, n % 256, 255, 0, NO_ERROR, 1, n + 1, 1) }

  function Rounds(n: nat): seq<Action> {
    if n == 0 then [Subscribe(20, true, 255)] else Rounds(n - 1) + Unanswered(RoundSlot(n - 1))
  }

  lemma NoneLive(slots: seq<Slot>)
    requires forall i :: 0 <= i < |slots| ==> !Live(slots[i])
    ensures forall c: nat :: FindLive(slots, c) == |slots|
  {
  }

  lemma FirstClaim(ack: bool, max: nat)
    requires max < 256
    ensures Step(Fresh(), Subscribe(20, ack, max)) == Put(Fresh(), 0, Claimed(EMPTY_SLOT, 20, ack, max, 0))
  {
    hide Claimed, Put, FindLive, FindFree;
    NoneLive(Fresh().slots);
    assert Fresh().slots[0].state == Free;
    assert FindFree(Fresh().slots) == 0;
  }

  lemma FirstStep()
    ensures Step(Fresh(), Subscribe(20, true, 255)) == Put(Fresh(), 0, RoundSlot(0))
  {
    hide Step, Fresh, Put;
    FirstClaim(true, 255);
  }

  lemma FirstHand()
    ensures AllAllowed(Fresh(), Rounds(0)) && Run(Fresh(), Rounds(0)) == Put(Fresh(), 0, RoundSlot(0))
  {
    hide Step;
    var first := [Subscribe(20, true, 255)];
    assert first[..0] == [];
    assert Run(Fresh(), first) == Step(Fresh(), first[0]);
    FirstStep();
    assert AllAllowed(Fresh(), first[..0]);
  }

  /** Runs and their conditions put together. */
  lemma {:induction false} RunAppend(p: Pool, xs: seq<Action>, ys: seq<Action>)
    requires Shaped(p)
    ensures Run(p, xs + ys) == Run(Run(p, xs), ys)
    ensures AllAllowed(p, xs) && AllAllowed(Run(p, xs), ys) ==> AllAllowed(p, xs + ys)
    decreases |ys|
  {
    hide Step, Allowed;
    if ys == [] {
      assert xs + ys == xs;
    } else {
      var n := |ys| - 1;
      RunAppend(p, xs, ys[..n]);
      assert (xs + ys)[..|xs + ys| - 1] == xs + ys[..n];
    }
  }

  lemma PutShaped(n: nat)
    ensures Shaped(Put(Fresh(), 0, RoundSlot(n)))
  {
  }

  lemma RoundSteps(n: nat)
    ensures var p := Put(Fresh(), 0, RoundSlot(n));
            var round := Unanswered(RoundSlot(n));
            Step(Step(Step(p, round[0]), round[1]), round[2]) == Put(Fresh(), 0, RoundSlot(n + 1))
  {
    var s := RoundSlot(n);
    var p := Put(Fresh(), 0, s);
    var round := Unanswered(s);
    assert Step(p, round[0]) == Put(Fresh(), 0, s.(state := WaitingAck));
    var q := Step(Step(p, round[0]), round[1]);
    assert q == Put(Fresh(), 0, s.(state := PrepareRetransmit));
    assert FindLive(q.slots, 20) == 0;
    assert (n % 256 + 1) % 256 == (n + 1) % 256;
  }

  lemma OneRound(n: nat)
    ensures var p := Put(Fresh(), 0, RoundSlot(n));
            var round := Unanswered(RoundSlot(n));
            AllAllowed(p, round) && Run(p, round) == Put(Fresh(), 0, RoundSlot(n + 1))
  {
    hide Step, Fresh, Put;
    PutShaped(n);
    var s := RoundSlot(n);
    var p := Put(Fresh(), 0, s);
    var round := Unanswered(s);
    assert round[..2][..1] == [round[0]] && round[..2][1] == round[1] && round[..1][..0] == [];
    RoundSteps(n);
    assert Run(p, round[..1]) == Step(p, round[0]);
    assert Run(p, round[..2]) == Step(Step(p, round[0]), round[1]);
    assert AllAllowed(p, round[..1][..0]);
    assert AllAllowed(p, round[..1]);
    assert AllAllowed(p, round[..2]);
  }

  lemma {:induction false} RoundsHand(n: nat)
    ensures AllAllowed(Fresh(), Rounds(n)) && Run(Fresh(), Rounds(n)) == Put(Fresh(), 0, RoundSlot(n))
  {
    hide Fresh, Step, Run, AllAllowed, Put, Unanswered;
    if n == 0 {
      FirstHand();
    } else {
      RoundsHand(n - 1);
      OneRound(n - 1);
      RunAppend(Fresh(), Rounds(n - 1), Unanswered(RoundSlot(n - 1)));
    }
  }

  /** With 255 retries asked for the byte that counts them never exceeds the limit: the attempts are not bounded. */
  lemma {:induction false} AttemptsUnbounded(n: nat)
    ensures exists actions :: AllAllowed(Fresh(), actions) && Run(Fresh(), actions).slots[0].handed == n + 1
  {
    var actions := Rounds(n);
    RoundsHand(n);
    assert AllAllowed(Fresh(), actions) && Run(Fresh(), actions).slots[0].handed == n + 1;
  }

  // ---- reports that come too late ----

  /** A submission reported failed, however often it was before, and another attempt asked for. */
  const LATE_ROUND: seq<Action> := [SendFailed(0, QueueFull), TimeOut(0), Subscribe(20, true, 0)]

  function LateRounds(n: nat): seq<Action> {
    if n == 0 then [Subscribe(20, true, 0)] else LateRounds(n - 1) + LATE_ROUND
  }

  /** A message with no retries, after `n` of them were refused. */
  function LateSlot(n: nat): Slot {
    if n == 0 then Slot(WaitingTx, 20, true, 0, 0, 0, NO_ERROR, 1, 1, 1)
    else Slot(Failed, 20, true, n, 0, 0, MAX_RETRY_REACHED, 1, 1, 1)
  }

  /** A retry does not depend on the state it finds. */
  lemma RetriedAnyway(s: Slot)
    ensures Retried(s.(state := PrepareRetransmit), 0) == Retried(s, 0)
  {
  }

  lemma RunThree(p: Pool, actions: seq<Action>)
    requires Shaped(p) && |actions| == 3
    ensures Run(p, actions) == Step(Step(Step(p, actions[0]), actions[1]), actions[2])
  {
    hide Step, Run;
    RunNil(p);
    assert actions[..0] == [] && actions[..3] == actions;
    RunPrefix(p, actions, 0);
    RunPrefix(p, actions, 1);
    RunPrefix(p, actions, 2);
  }

  lemma LateRound(p: Pool, s: Slot)
    requires p == Put(Fresh(), 0, s) && Live(s) && s.command == 20
    ensures Run(p, LATE_ROUND) == Put(Fresh(), 0, Retried(s, 0))
  {
    hide Retried;
    var round := LATE_ROUND;
    var queued, marked := Put(Fresh(), 0, s.(state := Queued)), Put(Fresh(), 0, s.(state := PrepareRetransmit));
    assert Step(p, round[0]) == queued && Step(queued, round[1]) == marked;
    assert FindLive(marked.slots, 20) == 0;
    RetriedAnyway(s);
    assert Step(marked, round[2]) == Put(Fresh(), 0, Retried(s, 0));
    RunThree(p, round);
  }

  lemma {:induction false} LateRoundsRun(n: nat)
    requires n < 256
    ensures Run(Fresh(), LateRounds(n)) == Put(Fresh(), 0, LateSlot(n))
  {
    hide Step, Run, Fresh, Put;
    if n == 0 {
      FirstClaim(true, 0);
      RunSnoc(Fresh(), LateRounds(0));
      RunNil(Fresh());
      assert LateRounds(0)[..0] == [];
    } else {
      LateRoundsRun(n - 1);
      LateRound(Put(Fresh(), 0, LateSlot(n - 1)), LateSlot(n - 1));
      RunAppend(Fresh(), LateRounds(n - 1), LATE_ROUND);
    }
  }

  /** The count can wrap: a message for which no retry was asked is handed out again after 256 such rounds. */
  lemma LateReportsWrapCount()
    ensures Tallied(Fresh()) && !AllWithin(Run(Fresh(), LateRounds(256)))
  {
    FreshTallied();
    hide Step, Run, Fresh;
    LateRoundsRun(255);
    LateRound(Put(Fresh(), 0, LateSlot(255)), LateSlot(255));
    RunAppend(Fresh(), LateRounds(255), LATE_ROUND);
    assert LateRounds(256) == LateRounds(255) + LATE_ROUND;
    assert !Within(Run(Fresh(), LateRounds(256)).slots[0]);
  }

  // ---- completions that come late ----

  /** The generation counts the claims of a slot in every run. */
  lemma {:induction false} RunKeepsGeneration(p: Pool, actions: seq<Action>, i: nat)
    requires Shaped(p) && i < SLOTS && p.slots[i].generation == GenerationOf(p.slots[i].claims)
    ensures var s := Run(p, actions).slots[i];
            s.generation == GenerationOf(s.claims) && p.slots[i].claims <= s.claims
    decreases |actions|
  {
    hide Step, GenerationOf, MovesBy;
    if actions == [] {
    } else {
      var n := |actions| - 1;
      RunKeepsGeneration(p, actions[..n], i);
      var m := StepMoves(Run(p, actions[..n]), actions[n], i);
      MoveKeepsGeneration(Run(p, actions[..n]).slots[i], Run(p, actions).slots[i], m);
    }
  }

  lemma MultipleOf(a: int)
    ensures (a * (GENERATIONS - 1)) % (GENERATIONS - 1) == 0
  {
  }

  lemma GenerationsDiffer(m: nat, n: nat)
    requires 0 < m <= n
    ensures GenerationOf(m) == GenerationOf(n) <==> (n - m) % (GENERATIONS - 1) == 0
  {
    var k := GENERATIONS - 1;
    var q, r := (m - 1) / k, (n - 1) / k;
    assert m - 1 == q * k + (m - 1) % k && n - 1 == r * k + (n - 1) % k;
    var d := (n - 1) % k - (m - 1) % k;
    assert n - m == (r - q) * k + d && -k < d < k;
    if d == 0 {
      MultipleOf(r - q);
    }
  }

  /** The context of a message that was handed out earlier from the same slot. */
  function ContextOf(s: Slot, i: nat): Context { Context(s.generation, s.command, i, s.revision) }

  /** A completion of an earlier use of a slot that was freed and claimed again changes nothing, whatever happened in
      between, as long as the slot has not been claimed a multiple of 2^32 - 1 times since. */
  lemma StaleCompletionIsInert(p: Pool, actions: seq<Action>, i: nat, result: TxResult)
    requires Shaped(p) && i < SLOTS && p.slots[i].claims > 0 && p.slots[i].generation == GenerationOf(p.slots[i].claims)
    requires Run(p, actions).slots[i].claims != p.slots[i].claims
    requires Run(p, actions).slots[i].claims - p.slots[i].claims < GENERATIONS - 1
    ensures Step(Run(p, actions), TxComplete(ContextOf(p.slots[i], i), result)) == Run(p, actions)
  {
    hide Run, GenerationOf;
    RunKeepsGeneration(p, actions, i);
    GenerationsDiffer(p.slots[i].claims, Run(p, actions).slots[i].claims);
  }

  /** The slot in the use after `n` others, by a message that asks for no acknowledgement. */
  function UseSlot(n: nat): Slot { Slot(WaitingTx, 20, false, 0, 0, 0, NO_ERROR, GenerationOf(n + 1), 1, n + 1) }

  /** The use ends with its completion, and the slot is claimed again. */
  function Reuse(s: Slot): seq<Action> { [TxComplete(ContextOf(s, 0), Success), Subscribe(20, false, 0)] }

  function Reuses(n: nat): seq<Action> { if n == 0 then [] else Reuses(n - 1) + Reuse(UseSlot(n - 1)) }

  function InUse(n: nat): (p: Pool)
    ensures Shaped(p) && p.slots[0] == UseSlot(n)
  {
    Put(Fresh(), 0, UseSlot(n))
  }

  lemma FirstUse()
    ensures Step(Fresh(), Subscribe(20, false, 0)) == InUse(0)
  {
    hide Step, Fresh, Put;
    FirstClaim(false, 0);
  }

  lemma NothingAllowed(p: Pool)
    requires Shaped(p)
    ensures AllAllowed(p, [])
  {
  }

  lemma GenerationPositive(n: nat)
    ensures GenerationOf(n + 1) > 0
  {
  }

  lemma ReuseSteps(n: nat)
    ensures Step(Step(InUse(n), Reuse(UseSlot(n))[0]), Reuse(UseSlot(n))[1]) == InUse(n + 1)
  {
    hide GenerationOf, NextGeneration;
    GenerationPositive(n);
    NextGenerationOf(n + 1);
    var freed := Step(InUse(n), Reuse(UseSlot(n))[0]);
    assert freed == Put(Fresh(), 0, Cleared(UseSlot(n)));
    NoneLive(freed.slots);
    assert FindFree(freed.slots) == 0;
  }

  lemma OneReuse(n: nat)
    ensures AllAllowed(InUse(n), Reuse(UseSlot(n))) && Run(InUse(n), Reuse(UseSlot(n))) == InUse(n + 1)
  {
    hide Step, InUse;
    var reuse := Reuse(UseSlot(n));
    ReuseSteps(n);
    assert reuse[..1] == [reuse[0]] && reuse[..1][..0] == [];
    assert Run(InUse(n), reuse[..1]) == Step(InUse(n), reuse[0]);
    assert AllAllowed(InUse(n), reuse[..1]);
  }

  lemma {:induction false} ReusesRun(n: nat)
    ensures AllAllowed(InUse(0), Reuses(n)) && Run(InUse(0), Reuses(n)) == InUse(n)
  {
    hide Step, Run, AllAllowed, InUse, Reuse;
    if n == 0 {
      RunNil(InUse(0));
      assert AllAllowed(InUse(0), []) by { NothingAllowed(InUse(0)); }
    } else {
      ReusesRun(n - 1);
      OneReuse(n - 1);
      RunAppend(InUse(0), Reuses(n - 1), Reuse(UseSlot(n - 1)));
    }
  }

  /** The bound is exact: a run that claims a slot 2^32 - 1 more times, in which the completion of its first use then
      ends the last one. */
  lemma GenerationComesBack()
    ensures exists actions ::
              && AllAllowed(InUse(0), actions)
              && Run(InUse(0), actions).slots[0].claims == InUse(0).slots[0].claims + (GENERATIONS - 1)
              && Run(InUse(0), actions).slots[0].state == WaitingTx
              && var late := TxComplete(ContextOf(InUse(0).slots[0], 0), Success);
                 Step(Run(InUse(0), actions), late).slots[0].state == Free
    ensures InUse(0) == Step(Fresh(), Subscribe(20, false, 0))
  {
    hide Run, AllAllowed, Reuses, GenerationOf, Fresh;
    FirstUse();
    var n := GENERATIONS - 1;
    ReusesRun(n);
    GenerationPositive(0);
    GenerationsDiffer(1, n + 1);
    var actions := Reuses(n);
    assert AllAllowed(InUse(0), actions) && Run(InUse(0), actions) == InUse(n);
  }
}
