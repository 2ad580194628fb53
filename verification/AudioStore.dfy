/** The audio sources: a copy in memory, one record file each, and the operations that keep both in step although any
    file write may fail and power may go at any point. What one operation does, as a value. */
module AudioStore {
  import opened Bytes
  import opened AudioRecord

  /** How a file write ends. A failed one leaves the old record (`Kept`), bytes that do not decode (`Torn`), or, when
      only closing or measuring the file fails, the new record (`Late`). */
  datatype Wrote = Done | Kept | Torn(junk: seq<Byte>) | Late

  datatype Code = Ok | InvalidArgument | AccessDenied | Busy | BadExchange | Already | IoError | FileError

  /** The first and second write of an operation, and the locks that cannot be had in time. */
  datatype Io = Io(first: Wrote, second: Wrote, selectionBusy: bool, busy: set<nat>)

  /** A record about to be written to file `slot` of `disk`: power may go before, in the middle or after. */
  datatype Pending = Pending(disk: seq<seq<Byte>>, slot: nat, record: seq<Byte>)

  /** `writes` is history: every file write so far. */
  datatype Store = Store(ready: bool, ram: seq<Source>, disk: seq<seq<Byte>>, writes: seq<Pending>)

  datatype Op =
    | Select(slot: nat, on: bool)
    | SetVolume(slot: nat, volume: nat)
    | SetMute(slot: nat, mute: bool)
    | UpdateRecord(slot: nat, record: seq<Byte>)

  ghost predicate Shaped(s: Store) { |s.ram| == SOURCES && |s.disk| == SOURCES }

  // ---- files ----

  predicate OnDisk(k: Checksum, disk: seq<seq<Byte>>, i: nat)
    requires i < |disk|
  {
    var c := Decode(k, disk[i], i);
    c.Some? && c.value.selected
  }

  /** What a write leaves in the file. */
  function Left(k: Checksum, was: seq<Byte>, slot: nat, record: seq<Byte>, w: Wrote): seq<Byte> {
    match w
    case Done | Late => record
    case Kept => was
    case Torn(junk) => if Decode(k, junk, slot).None? then junk else was
  }

  function WriteFile(k: Checksum, s: Store, slot: nat, record: seq<Byte>, w: Wrote): (t: Store)
    requires Shaped(s) && slot < SOURCES
    ensures Shaped(t)
  {
    s.(disk := s.disk[slot := Left(k, s.disk[slot], slot, record, w)],
       writes := s.writes + [Pending(s.disk, slot, record)])
  }

  /** The file of a source rewritten from `c`. */
  function UpdateFile(k: Checksum, s: Store, c: Source, w: Wrote): (r: (Store, Code))
    requires Shaped(s)
    ensures Shaped(r.0) && r.0.ram == s.ram
  {
    var record := Encode(k, c);
    if record.None? then (s, BadExchange)
    else if c.id % 256 >= SOURCES then (s, FileError)
    else (WriteFile(k, s, c.id % 256, record.value, w), if w == Done then Ok else FileError)
  }

  // ---- operations ----

  /** The first selected source, or the number of sources if there is none. */
  function FindSelected(ram: seq<Source>): (i: nat)
    ensures i <= |ram| && (i < |ram| ==> ram[i].selected) && forall j :: 0 <= j < i ==> !ram[j].selected
  {
    if ram == [] then 0 else if ram[0].selected then 0 else 1 + FindSelected(ram[1..])
  }

  /** Source `slot` becomes `c` in its file and then in memory; if the file fails, memory is rolled back. */
  function Change(k: Checksum, s: Store, slot: nat, c: Source, w: Wrote): (r: (Store, Code))
    requires Shaped(s) && slot < SOURCES
    ensures Shaped(r.0)
  {
    var (t, code) := UpdateFile(k, s, c, w);
    (if code == Ok then t.(ram := s.ram[slot := c]) else t, code)
  }

  function DoSelect(k: Checksum, s: Store, slot: nat, on: bool, io: Io): (r: (Store, Code))
    requires Shaped(s)
    ensures Shaped(r.0)
  {
    if slot >= SOURCES then (s, InvalidArgument)
    else if !s.ready then (s, AccessDenied)
    else if io.selectionBusy then (s, Busy)
    else
      var previous := FindSelected(s.ram);
      if !on then
        if slot in io.busy then (s, Busy)
        else if !s.ram[slot].selected then (s, Ok)
        else Change(k, s, slot, s.ram[slot].(selected := false), io.first)
      else if previous == slot then (s, Ok)
      else if slot in io.busy || (previous < SOURCES && previous in io.busy) then (s, Busy)
      else if !s.ram[slot].active then (s, AccessDenied)
      else if previous < SOURCES then
        var (t, code) := Change(k, s, previous, s.ram[previous].(selected := false), io.first);
        if code != Ok then (t, code) else Change(k, t, slot, t.ram[slot].(selected := true), io.second)
      else Change(k, s, slot, s.ram[slot].(selected := true), io.second)
  }

  function DoSetVolume(k: Checksum, s: Store, slot: nat, volume: nat, io: Io): (r: (Store, Code))
    requires Shaped(s)
    ensures Shaped(r.0)
  {
    if slot >= SOURCES || volume > MAX_VOLUME then (s, InvalidArgument)
    else if !s.ready then (s, AccessDenied)
    else if slot in io.busy then (s, Busy)
    else if s.ram[slot].volume == volume then (s, Ok)
    else Change(k, s, slot, s.ram[slot].(volume := volume), io.first)
  }

  function DoSetMute(k: Checksum, s: Store, slot: nat, mute: bool, io: Io): (r: (Store, bool))
    requires Shaped(s)
    ensures Shaped(r.0)
  {
    if slot >= SOURCES || !s.ready || slot in io.busy then (s, false)
    else if s.ram[slot].muted == mute then (s, true)
    else
      var (t, code) := Change(k, s, slot, s.ram[slot].(muted := mute), io.first);
      (t, code == Ok)
  }

  function DoUpdateRecord(k: Checksum, s: Store, slot: nat, record: seq<Byte>, io: Io): (r: (Store, Code))
    requires Shaped(s)
    ensures Shaped(r.0)
  {
    if |record| != RECORD || slot >= SOURCES then (s, InvalidArgument)
    else if !s.ready then (s, AccessDenied)
    else
      var c := Decode(k, record, slot);
      if c.None? then (s, InvalidArgument)
      else if io.selectionBusy || slot in io.busy then (s, Busy)
      else
        var previous := FindSelected(s.ram);
        if c.value.selected && previous < SOURCES && previous != slot then (s, Already)
        else
          var t := WriteFile(k, s, slot, record, io.first);
          if io.first != Done then (t, IoError) else (t.(ram := s.ram[slot := c.value]), Ok)
  }

  function Step(k: Checksum, s: Store, op: Op, io: Io): (t: Store)
    requires Shaped(s)
    ensures Shaped(t)
  {
    match op
    case Select(slot, on) => DoSelect(k, s, slot, on, io).0
    case SetVolume(slot, volume) => DoSetVolume(k, s, slot, volume, io).0
    case SetMute(slot, mute) => DoSetMute(k, s, slot, mute, io).0
    case UpdateRecord(slot, record) => DoUpdateRecord(k, s, slot, record, io).0
  }

  function Run(k: Checksum, s: Store, ops: seq<(Op, Io)>): (t: Store)
    requires Shaped(s)
    ensures Shaped(t)
    decreases |ops|
  {
    if ops == [] then s
    else
      var n := |ops| - 1;
      Step(k, Run(k, s, ops[..n]), ops[n].0, ops[n].1)
  }

  predicate AtMostOne(k: Checksum, disk: seq<seq<Byte>>)
    requires |disk| == SOURCES
  {
    forall i, j :: 0 <= i < SOURCES && 0 <= j < SOURCES && OnDisk(k, disk, i) && OnDisk(k, disk, j) ==> i == j
  }

  /** Memory read back from the files: all of them must decode, with one selected source at most. */
  predicate Loadable(k: Checksum, disk: seq<seq<Byte>>)
    requires |disk| == SOURCES
  {
    && (forall i :: 0 <= i < SOURCES ==> Decode(k, disk[i], i).Some?)
    && AtMostOne(k, disk)
  }

  function LoadedRam(k: Checksum, disk: seq<seq<Byte>>): (ram: seq<Source>)
    requires |disk| == SOURCES && Loadable(k, disk)
    ensures |ram| == SOURCES
  {
    seq(SOURCES, i requires 0 <= i < SOURCES => Decode(k, disk[i], i).value)
  }

  function DoLoad(k: Checksum, s: Store): (r: (Store, bool))
    requires Shaped(s)
    ensures Shaped(r.0)
  {
    if Loadable(k, s.disk) then (s.(ready := true, ram := LoadedRam(k, s.disk)), true) else (s.(ready := true), false)
  }

  // ---- what holds between operations ----

  ghost predicate OneSelected(ram: seq<Source>) {
    forall i, j :: 0 <= i < |ram| && 0 <= j < |ram| && ram[i].selected && ram[j].selected ==> i == j
  }

  /** Memory: well-formed sources in their places, one selected at most, and only an active one. */
  ghost predicate Memory(s: Store) {
    && Shaped(s)
    && (forall i :: 0 <= i < SOURCES ==> WellFormed(s.ram[i]) && s.ram[i].id == i)
    && OneSelected(s.ram)
  }

  ghost predicate Inv(k: Checksum, s: Store) {
    && Memory(s)
    && (forall i :: 0 <= i < SOURCES && OnDisk(k, s.disk, i) ==> s.ram[i].selected)
  }

  lemma LoadEstablishes(k: Checksum, s: Store)
    requires Shaped(s) && DoLoad(k, s).1
    ensures Inv(k, DoLoad(k, s).0)
  {
    hide Decode, WellFormed;
    forall i | 0 <= i < SOURCES
      ensures WellFormed(LoadedRam(k, s.disk)[i]) && LoadedRam(k, s.disk)[i].id == i
    {
      DecodeThenEncode(k, s.disk[i], i);
    }
    assert forall i :: 0 <= i < SOURCES ==> LoadedRam(k, s.disk)[i].selected == OnDisk(k, s.disk, i);
  }

  lemma Encodes(k: Checksum, c: Source)
    requires WellFormed(c)
    ensures Encode(k, c).Some? && Decode(k, Encode(k, c).value, c.id) == Some(c)
  {
    EncodeThenDecode(k, c);
  }

  /** One file rewritten from what memory says or will say. */
  lemma ChangeKeeps(k: Checksum, s: Store, slot: nat, c: Source, w: Wrote)
    requires Inv(k, s) && slot < SOURCES && WellFormed(c) && c.id == slot
    requires c.selected ==> s.ram[slot].selected || (w != Late && FindSelected(s.ram) == SOURCES)
    ensures var (t, code) := Change(k, s, slot, c, w);
            && Inv(k, t)
            && t.ram == (if w == Done then s.ram[slot := c] else s.ram)
            && t.writes == s.writes + [Pending(s.disk, slot, Encode(k, c).value)]
            && (code == Ok <==> w == Done)
  {
    hide Decode, Encode, WellFormed;
    assert WellFormed(c) && Encode(k, c).Some? && Decode(k, Encode(k, c).value, slot) == Some(c) by {
      Encodes(k, c);
    }
    var t := Change(k, s, slot, c, w).0;
    assert forall i :: 0 <= i < SOURCES && i != slot ==> t.disk[i] == s.disk[i];
    assert OnDisk(k, t.disk, slot) ==> t.ram[slot].selected;
  }

  // ---- failures reported after the new record is in place ----

  /** Selecting `slot` gets as far as writing its file. */
  predicate TurnsOn(k: Checksum, s: Store, slot: nat, io: Io)
    requires Shaped(s)
  {
    var previous := FindSelected(s.ram);
    && slot < SOURCES && s.ready && !io.selectionBusy && previous != slot && slot !in io.busy
    && s.ram[slot].active
    && (previous < SOURCES ==> previous !in io.busy && io.first == Done)
  }

  /** The write that would turn a source on, in its file before in memory, is reported failed although it took
      effect. */
  predicate LateTurnOn(k: Checksum, s: Store, op: Op, io: Io)
    requires Shaped(s)
  {
    match op
    case Select(slot, on) => on && io.second == Late && TurnsOn(k, s, slot, io)
    case UpdateRecord(slot, record) =>
      && io.first == Late && s.ready && slot < SOURCES && |record| == RECORD
      && !io.selectionBusy && slot !in io.busy
      && Decode(k, record, slot).Some? && Decode(k, record, slot).value.selected
      && FindSelected(s.ram) == SOURCES
    case _ => false
  }

  // ---- each operation ----

  lemma {:induction false} FindFinds(ram: seq<Source>, i: nat)
    requires i < |ram| && ram[i].selected && OneSelected(ram)
    ensures FindSelected(ram) == i
  {
    assert !ram[FindSelected(ram)].selected || FindSelected(ram) == i;
  }

  lemma Shape(k: Checksum, s: Store)
    requires Inv(k, s)
    ensures Shaped(s) && OneSelected(s.ram) && forall i :: 0 <= i < SOURCES ==> WellFormed(s.ram[i]) && s.ram[i].id == i
  {
  }

  lemma SourceOff(c: Source)
    requires WellFormed(c)
    ensures WellFormed(c.(selected := false))
  {
  }

  lemma SourceOn(c: Source)
    requires WellFormed(c) && c.active
    ensures WellFormed(c.(selected := true))
  {
  }

  lemma NoneSelected(ram: seq<Source>, i: nat)
    requires i < |ram| && OneSelected(ram) && ram[i].selected
    ensures FindSelected(ram[i := ram[i].(selected := false)]) == |ram|
  {
    var off := ram[i := ram[i].(selected := false)];
    assert forall j :: 0 <= j < |off| ==> !off[j].selected;
  }

  /** One file rewritten: what it leaves in memory, in the files and on record. */
  lemma ChangeDoes(k: Checksum, s: Store, slot: nat, c: Source, w: Wrote)
    requires Shaped(s) && slot < SOURCES && WellFormed(c) && c.id == slot
    ensures Encode(k, c).Some? && Decode(k, Encode(k, c).value, slot) == Some(c)
    ensures var (t, code) := Change(k, s, slot, c, w);
            var record := Encode(k, c).value;
            && t.ram == (if w == Done then s.ram[slot := c] else s.ram)
            && t.disk == s.disk[slot := Left(k, s.disk[slot], slot, record, w)]
            && t.writes == s.writes + [Pending(s.disk, slot, record)]
            && t.ready == s.ready && (code == Ok <==> w == Done)
  {
    hide Decode, Encode, WellFormed, Left;
    Encodes(k, c);
  }

  lemma ChangeKeepsMemory(k: Checksum, s: Store, slot: nat, c: Source, w: Wrote)
    requires Memory(s) && slot < SOURCES && WellFormed(c) && c.id == slot
    requires c.selected ==> FindSelected(s.ram) == slot || FindSelected(s.ram) == SOURCES
    ensures Memory(Change(k, s, slot, c, w).0)
  {
    hide Decode, Encode, WellFormed, Change;
    ChangeDoes(k, s, slot, c, w);
    forall i | 0 <= i < SOURCES && s.ram[i].selected
      ensures FindSelected(s.ram) == i
    {
      FindFinds(s.ram, i);
    }
  }

  lemma MemoryAt(s: Store, slot: nat)
    requires Memory(s) && slot < SOURCES
    ensures WellFormed(s.ram[slot]) && s.ram[slot].id == slot
  {
  }

  lemma MemoryShaped(s: Store)
    requires Memory(s)
    ensures Shaped(s) && OneSelected(s.ram)
  {
  }

  lemma SwitchKeepsMemory(k: Checksum, s: Store, previous: nat, slot: nat, io: Io)
    requires Memory(s) && slot < SOURCES && previous < SOURCES && slot != previous
    requires s.ram[slot].active && FindSelected(s.ram) == previous
    ensures var (t, code) := Change(k, s, previous, s.ram[previous].(selected := false), io.first);
            Memory(t) && (code == Ok ==> Memory(Change(k, t, slot, t.ram[slot].(selected := true), io.second).0))
  {
    hide WellFormed, Change, Encode, Decode, Left, Memory;
    MemoryAt(s, previous);
    MemoryAt(s, slot);
    MemoryShaped(s);
    var off := s.ram[previous].(selected := false);
    SourceOff(s.ram[previous]);
    ChangeDoes(k, s, previous, off, io.first);
    ChangeKeepsMemory(k, s, previous, off, io.first);
    var t := Change(k, s, previous, off, io.first).0;
    if io.first == Done {
      NoneSelected(s.ram, previous);
      SourceOn(s.ram[slot]);
      ChangeKeepsMemory(k, t, slot, t.ram[slot].(selected := true), io.second);
    }
  }

  lemma SelectKeepsMemory(k: Checksum, s: Store, slot: nat, on: bool, io: Io)
    requires Memory(s)
    ensures Memory(DoSelect(k, s, slot, on, io).0)
  {
    hide WellFormed, Change, Memory;
    MemoryShaped(s);
    var previous := FindSelected(s.ram);
    if slot < SOURCES {
      MemoryAt(s, slot);
      if !on && s.ram[slot].selected {
        SourceOff(s.ram[slot]);
        ChangeKeepsMemory(k, s, slot, s.ram[slot].(selected := false), io.first);
      } else if on && previous != slot && s.ram[slot].active {
        if previous < SOURCES {
          SwitchKeepsMemory(k, s, previous, slot, io);
        } else {
          SourceOn(s.ram[slot]);
          ChangeKeepsMemory(k, s, slot, s.ram[slot].(selected := true), io.second);
        }
      }
    }
  }

  lemma SettingsKeepMemory(k: Checksum, s: Store, op: Op, io: Io)
    requires Memory(s) && (op.SetVolume? || op.SetMute?)
    ensures Memory(Step(k, s, op, io))
  {
    hide Change;
    if op.slot < SOURCES {
      var c := s.ram[op.slot];
      if c.selected {
        FindFinds(s.ram, op.slot);
      }
      if op.SetVolume? && op.volume <= MAX_VOLUME {
        ChangeKeepsMemory(k, s, op.slot, c.(volume := op.volume), io.first);
      } else if op.SetMute? {
        ChangeKeepsMemory(k, s, op.slot, c.(muted := op.mute), io.first);
      }
    }
  }

  lemma UpdateKeepsMemory(k: Checksum, s: Store, slot: nat, record: seq<Byte>, io: Io)
    requires Memory(s)
    ensures Memory(DoUpdateRecord(k, s, slot, record, io).0)
  {
    hide Decode, WellFormed, Left;
    if |record| == RECORD && slot < SOURCES && Decode(k, record, slot).Some? {
      DecodeThenEncode(k, record, slot);
      forall i | 0 <= i < SOURCES && s.ram[i].selected
        ensures FindSelected(s.ram) == i
      {
        FindFinds(s.ram, i);
      }
    }
  }

  /** Whatever the writes do, memory keeps one selected source at most, and that one active. */
  lemma StepKeepsMemory(k: Checksum, s: Store, op: Op, io: Io)
    requires Memory(s)
    ensures Memory(Step(k, s, op, io))
  {
    hide Memory, DoSelect, DoUpdateRecord, DoSetVolume, DoSetMute;
    match op {
      case Select(slot, on) => SelectKeepsMemory(k, s, slot, on, io);
      case UpdateRecord(slot, record) => UpdateKeepsMemory(k, s, slot, record, io);
      case _ => SettingsKeepMemory(k, s, op, io);
    }
  }

  lemma {:induction false} RunKeepsMemory(k: Checksum, s: Store, ops: seq<(Op, Io)>)
    requires Memory(s)
    ensures Memory(Run(k, s, ops))
    decreases |ops|
  {
    hide Memory, Step;
    MemoryShaped(s);
    if ops == [] {
    } else {
      var n := |ops| - 1;
      RunKeepsMemory(k, s, ops[..n]);
      StepKeepsMemory(k, Run(k, s, ops[..n]), ops[n].0, ops[n].1);
    }
  }

  /** With nothing selected, turning a source on keeps everything unless its write fails late. */
  lemma TurnOn(k: Checksum, s: Store, slot: nat, w: Wrote)
    requires Inv(k, s) && slot < SOURCES && s.ram[slot].active && FindSelected(s.ram) == SOURCES
    ensures Inv(k, Change(k, s, slot, s.ram[slot].(selected := true), w).0) <==> w != Late
  {
    hide Decode, Encode;
    var c := s.ram[slot].(selected := true);
    assert WellFormed(c);
    if w != Late {
      ChangeKeeps(k, s, slot, c, w);
    } else {
      Encodes(k, c);
      var t := Change(k, s, slot, c, w).0;
      assert OnDisk(k, t.disk, slot) && !t.ram[slot].selected;
    }
  }

  lemma SelectKeeps(k: Checksum, s: Store, slot: nat, on: bool, io: Io)
    requires Inv(k, s)
    ensures Inv(k, Step(k, s, Select(slot, on), io)) <==> !LateTurnOn(k, s, Select(slot, on), io)
  {
    hide Decode, Encode, WellFormed, Change, Inv;
    Shape(k, s);
    var previous := FindSelected(s.ram);
    if slot < SOURCES && s.ready && !io.selectionBusy && slot !in io.busy {
      if !on {
        if s.ram[slot].selected {
          SourceOff(s.ram[slot]);
          ChangeKeeps(k, s, slot, s.ram[slot].(selected := false), io.first);
        }
      } else if previous != slot && s.ram[slot].active && previous < SOURCES {
        SourceOff(s.ram[previous]);
        ChangeKeeps(k, s, previous, s.ram[previous].(selected := false), io.first);
        var t := Change(k, s, previous, s.ram[previous].(selected := false), io.first).0;
        if io.first == Done {
          NoneSelected(s.ram, previous);
          TurnOn(k, t, slot, io.second);
        }
      } else if previous != slot && s.ram[slot].active {
        TurnOn(k, s, slot, io.second);
      }
    }
  }

  lemma UpdateRecordKeeps(k: Checksum, s: Store, slot: nat, record: seq<Byte>, io: Io)
    requires Inv(k, s)
    ensures Inv(k, Step(k, s, UpdateRecord(slot, record), io)) <==> !LateTurnOn(k, s, UpdateRecord(slot, record), io)
  {
    hide Decode, Encode, WellFormed;
    var t := Step(k, s, UpdateRecord(slot, record), io);
    if |record| == RECORD && slot < SOURCES && s.ready && Decode(k, record, slot).Some? && !io.selectionBusy &&
        slot !in io.busy {
      var c := Decode(k, record, slot).value;
      DecodeThenEncode(k, record, slot);
      var previous := FindSelected(s.ram);
      if !(c.selected && previous < SOURCES && previous != slot) {
        assert forall i :: 0 <= i < SOURCES && i != slot ==> t.disk[i] == s.disk[i];
        assert OnDisk(k, s.disk[slot := record], slot) == c.selected;
        if LateTurnOn(k, s, UpdateRecord(slot, record), io) {
          assert OnDisk(k, t.disk, slot) && !t.ram[slot].selected;
        }
      }
    }
  }

  lemma SettingsKeep(k: Checksum, s: Store, op: Op, io: Io)
    requires Inv(k, s) && (op.SetVolume? || op.SetMute?)
    ensures Inv(k, Step(k, s, op, io))
  {
    hide Decode, Encode, Change;
    if op.slot < SOURCES {
      var c := s.ram[op.slot];
      if op.SetVolume? && op.volume <= MAX_VOLUME {
        ChangeKeeps(k, s, op.slot, c.(volume := op.volume), io.first);
      } else if op.SetMute? {
        ChangeKeeps(k, s, op.slot, c.(muted := op.mute), io.first);
      }
    }
  }

  /** Between operations memory has at most one selected source, it is active, and a file says selected only if memory
      does. Every operation keeps this, however its writes fail, except exactly when the write that turns a source on
      takes effect and is still reported failed. */
  lemma StepKeepsInvIff(k: Checksum, s: Store, op: Op, io: Io)
    requires Inv(k, s)
    ensures Inv(k, Step(k, s, op, io)) <==> !LateTurnOn(k, s, op, io)
  {
    hide Inv, Decode, DoSelect, DoUpdateRecord, DoSetVolume, DoSetMute;
    match op {
      case Select(slot, on) => SelectKeeps(k, s, slot, on, io);
      case UpdateRecord(slot, record) => UpdateRecordKeeps(k, s, slot, record, io);
      case _ => SettingsKeep(k, s, op, io);
    }
  }

  /** No late failure of that kind along a run. */
  ghost predicate NoLateTurnOn(k: Checksum, s: Store, ops: seq<(Op, Io)>)
    requires Shaped(s)
    decreases |ops|
  {
    ops == [] ||
    (var n := |ops| - 1;
     NoLateTurnOn(k, s, ops[..n]) && !LateTurnOn(k, Run(k, s, ops[..n]), ops[n].0, ops[n].1))
  }

  lemma RunNil(k: Checksum, s: Store)
    requires Shaped(s)
    ensures Run(k, s, []) == s
  {
  }

  lemma RunSnoc(k: Checksum, s: Store, ops: seq<(Op, Io)>)
    requires Shaped(s) && ops != []
    ensures var n := |ops| - 1;
            Run(k, s, ops) == Step(k, Run(k, s, ops[..n]), ops[n].0, ops[n].1)
  {
    hide Step;
  }

  /** A file says selected only if memory does, all along a run, exactly when the run has no such failure. */
  lemma {:induction false} RunKeepsInv(k: Checksum, s: Store, ops: seq<(Op, Io)>)
    requires Inv(k, s)
    ensures NoLateTurnOn(k, s, ops) <==> forall n :: 0 <= n <= |ops| ==> Inv(k, Run(k, s, ops[..n]))
    ensures NoLateTurnOn(k, s, ops) ==> Inv(k, Run(k, s, ops))
    decreases |ops|
  {
    hide Inv, Step, LateTurnOn, Run;
    Shape(k, s);
    assert ops[..|ops|] == ops;
    RunNil(k, s);
    if ops == [] {
    } else {
      var n := |ops| - 1;
      RunKeepsInv(k, s, ops[..n]);
      RunSnoc(k, s, ops);
      assert forall m :: 0 <= m <= n ==> ops[..n][..m] == ops[..m];
      if Inv(k, Run(k, s, ops[..n])) {
        StepKeepsInvIff(k, Run(k, s, ops[..n]), ops[n].0, ops[n].1);
      }
    }
  }

  // ---- two selected files ----

  predicate Takes(w: Wrote) { w == Done || w == Late }

  /** A file other than those of `a` and `b` says selected. */
  predicate OnBesides(k: Checksum, disk: seq<seq<Byte>>, a: nat, b: nat)
    requires |disk| == SOURCES
  {
    exists i :: 0 <= i < SOURCES && i != a && i != b && OnDisk(k, disk, i)
  }

  /** The operation gets as far as writing a selected record while another file says selected. */
  predicate PutsSecond(k: Checksum, s: Store, op: Op, io: Io)
    requires Shaped(s)
  {
    match op
    case Select(slot, on) => on && TurnsOn(k, s, slot, io) && OnBesides(k, s.disk, slot, FindSelected(s.ram))
    case SetVolume(slot, volume) =>
      && slot < SOURCES && volume <= MAX_VOLUME && s.ready && slot !in io.busy && s.ram[slot].volume != volume
      && s.ram[slot].selected && OnBesides(k, s.disk, slot, slot)
    case SetMute(slot, mute) =>
      && slot < SOURCES && s.ready && slot !in io.busy && s.ram[slot].muted != mute
      && s.ram[slot].selected && OnBesides(k, s.disk, slot, slot)
    case UpdateRecord(slot, record) =>
      && |record| == RECORD && slot < SOURCES && s.ready && !io.selectionBusy && slot !in io.busy
      && Decode(k, record, slot).Some? && Decode(k, record, slot).value.selected
      && (FindSelected(s.ram) == SOURCES || FindSelected(s.ram) == slot) && OnBesides(k, s.disk, slot, slot)
  }

  /** That write takes effect. */
  predicate SecondOn(k: Checksum, s: Store, op: Op, io: Io)
    requires Shaped(s)
  {
    PutsSecond(k, s, op, io) && Takes(if op.Select? then io.second else io.first)
  }

  /** What the files may hold when power goes during a write: the old record, bytes that do not decode, or the new
      one. */
  ghost predicate CutDuring(k: Checksum, p: Pending, disk: seq<seq<Byte>>) {
    && |p.disk| == SOURCES && p.slot < SOURCES && |disk| == SOURCES
    && disk == p.disk[p.slot := disk[p.slot]]
    && (disk[p.slot] == p.disk[p.slot] || disk[p.slot] == p.record || Decode(k, disk[p.slot], p.slot).None?)
  }

  /** The writes `t` has and `s` had not. */
  function NewWrites(s: Store, t: Store): seq<Pending>
    requires |s.writes| <= |t.writes|
  {
    t.writes[|s.writes|..]
  }

  /** Wherever power goes during the writes from `s` to `t`, one file at most says selected. */
  ghost predicate CutsSafe(k: Checksum, writes: seq<Pending>) {
    forall i, disk :: 0 <= i < |writes| && CutDuring(k, writes[i], disk) ==> AtMostOne(k, disk)
  }

  /** A write that cannot put a second selected source on disk, wherever it is cut. */
  ghost predicate SafeWrite(k: Checksum, p: Pending)
    requires |p.disk| == SOURCES && p.slot < SOURCES
  {
    AtMostOne(k, p.disk) &&
    (OnDisk(k, p.disk[p.slot := p.record], p.slot) ==> !OnBesides(k, p.disk, p.slot, p.slot))
  }

  /** What is at stake in one write, completed or cut. */
  lemma OneWrite(k: Checksum, disk: seq<seq<Byte>>, slot: nat, record: seq<Byte>, w: Wrote)
    requires |disk| == SOURCES && slot < SOURCES && AtMostOne(k, disk)
    ensures var after := disk[slot := Left(k, disk[slot], slot, record, w)];
            var on := OnDisk(k, disk[slot := record], slot);
            && (AtMostOne(k, after) <==> !(on && Takes(w) && OnBesides(k, disk, slot, slot)))
            && (!on ==> forall i :: 0 <= i < SOURCES && OnDisk(k, after, i) ==> OnDisk(k, disk, i))
            && (Takes(w) && !on ==> !OnDisk(k, after, slot))
            && (forall i :: 0 <= i < SOURCES && i != slot ==> OnDisk(k, after, i) == OnDisk(k, disk, i))
  {
    hide Decode;
    var after := disk[slot := Left(k, disk[slot], slot, record, w)];
    assert forall i :: 0 <= i < SOURCES && i != slot ==> OnDisk(k, after, i) == OnDisk(k, disk, i);
    if Takes(w) {
      assert OnDisk(k, after, slot) == OnDisk(k, disk[slot := record], slot);
    } else {
      assert OnDisk(k, after, slot) ==> OnDisk(k, disk, slot);
    }
  }

  lemma SafeWriteCut(k: Checksum, p: Pending, disk: seq<seq<Byte>>)
    requires CutDuring(k, p, disk) && SafeWrite(k, p)
    ensures AtMostOne(k, disk)
  {
    hide Decode;
    assert forall i :: 0 <= i < SOURCES && i != p.slot ==> OnDisk(k, disk, i) == OnDisk(k, p.disk, i);
    if OnDisk(k, disk, p.slot) {
      if disk[p.slot] == p.disk[p.slot] {
        assert OnDisk(k, p.disk, p.slot);
      } else {
        assert OnDisk(k, p.disk[p.slot := p.record], p.slot);
      }
    }
  }

  lemma UnsafeWriteCut(k: Checksum, p: Pending)
    requires |p.disk| == SOURCES && p.slot < SOURCES && !SafeWrite(k, p)
    ensures !AtMostOne(k, p.disk) || !AtMostOne(k, p.disk[p.slot := p.record])
  {
    hide Decode;
    if AtMostOne(k, p.disk) {
      var i :| 0 <= i < SOURCES && i != p.slot && OnDisk(k, p.disk, i);
      assert OnDisk(k, p.disk[p.slot := p.record], i);
    }
  }

  /** A cut anywhere in a write is harmless exactly when the write is safe. */
  lemma SafeWriteIff(k: Checksum, p: Pending)
    requires |p.disk| == SOURCES && p.slot < SOURCES
    ensures CutsSafe(k, [p]) <==> SafeWrite(k, p)
  {
    hide Decode, AtMostOne;
    if SafeWrite(k, p) {
      forall disk | CutDuring(k, p, disk)
        ensures AtMostOne(k, disk)
      {
        SafeWriteCut(k, p, disk);
      }
    } else {
      var cut := p.disk[p.slot := p.record];
      assert CutDuring(k, [p][0], p.disk) && CutDuring(k, [p][0], cut);
      UnsafeWriteCut(k, p);
    }
  }

  lemma CutsApart(k: Checksum, xs: seq<Pending>, ys: seq<Pending>)
    ensures CutsSafe(k, xs + ys) <==> CutsSafe(k, xs) && CutsSafe(k, ys)
    ensures CutsSafe(k, [])
  {
    hide CutDuring, AtMostOne;
    forall i, disk | 0 <= i < |xs| && CutDuring(k, xs[i], disk)
      ensures CutDuring(k, (xs + ys)[i], disk)
    {
    }
    forall i, disk | 0 <= i < |ys| && CutDuring(k, ys[i], disk)
      ensures CutDuring(k, (xs + ys)[|xs| + i], disk)
    {
    }
  }

  lemma RecordOn(k: Checksum, disk: seq<seq<Byte>>, slot: nat, record: seq<Byte>, c: Source)
    requires |disk| == SOURCES && slot < SOURCES && Decode(k, record, slot) == Some(c)
    ensures OnDisk(k, disk[slot := record], slot) == c.selected
  {
    hide Decode;
  }

  /** What an operation does to files of which one at most says selected. */
  ghost predicate KeepsOneIff(k: Checksum, s: Store, t: Store, puts: bool, takes: bool) {
    && |t.disk| == |s.disk| == SOURCES && |s.writes| <= |t.writes|
    && (AtMostOne(k, t.disk) <==> !(puts && takes))
    && (CutsSafe(k, NewWrites(s, t)) <==> !puts)
  }

  /** One file rewritten while at most one says selected. */
  lemma ChangeKeepsOneIff(k: Checksum, s: Store, slot: nat, c: Source, w: Wrote)
    requires Shaped(s) && slot < SOURCES && WellFormed(c) && c.id == slot && AtMostOne(k, s.disk)
    ensures var t := Change(k, s, slot, c, w).0;
            && KeepsOneIff(k, s, t, c.selected && OnBesides(k, s.disk, slot, slot), Takes(w))
            && (Takes(w) && !c.selected ==> !OnDisk(k, t.disk, slot))
            && (forall i :: 0 <= i < SOURCES && i != slot ==> OnDisk(k, t.disk, i) == OnDisk(k, s.disk, i))
  {
    hide Decode, Encode, WellFormed, Left, Change, AtMostOne, CutsSafe, OnBesides;
    ChangeDoes(k, s, slot, c, w);
    var record := Encode(k, c).value;
    RecordOn(k, s.disk, slot, record, c);
    OneWrite(k, s.disk, slot, record, w);
    var p := Pending(s.disk, slot, record);
    SafeWriteIff(k, p);
    assert NewWrites(s, Change(k, s, slot, c, w).0) == [p];
  }

  lemma NothingWritten(k: Checksum, s: Store, takes: bool)
    requires |s.disk| == SOURCES && AtMostOne(k, s.disk)
    ensures KeepsOneIff(k, s, s, false, takes)
  {
    hide AtMostOne;
    CutsApart(k, [], []);
    assert NewWrites(s, s) == [];
  }

  /** The selected source is turned off, and then another on. */
  lemma SwitchKeepsOneIff(k: Checksum, s: Store, previous: nat, slot: nat, io: Io)
    requires Memory(s) && AtMostOne(k, s.disk) && slot < SOURCES && previous < SOURCES && slot != previous
    requires s.ram[slot].active && FindSelected(s.ram) == previous && io.first == Done
    ensures var t := Change(k, s, previous, s.ram[previous].(selected := false), io.first).0;
            var u := Change(k, t, slot, t.ram[slot].(selected := true), io.second).0;
            KeepsOneIff(k, s, u, OnBesides(k, s.disk, slot, previous), Takes(io.second))
  {
    hide Decode, Encode, WellFormed, Left, Change, AtMostOne, CutsSafe, OnDisk;
    var off := s.ram[previous].(selected := false);
    SourceOff(s.ram[previous]);
    SourceOn(s.ram[slot]);
    ChangeDoes(k, s, previous, off, io.first);
    ChangeKeepsOneIff(k, s, previous, off, io.first);
    var t := Change(k, s, previous, off, io.first).0;
    var on := t.ram[slot].(selected := true);
    ChangeDoes(k, t, slot, on, io.second);
    ChangeKeepsOneIff(k, t, slot, on, io.second);
    var u := Change(k, t, slot, on, io.second).0;
    CutsApart(k, NewWrites(s, t), NewWrites(t, u));
    assert NewWrites(s, u) == NewWrites(s, t) + NewWrites(t, u);
    assert OnBesides(k, t.disk, slot, slot) == OnBesides(k, s.disk, slot, previous);
  }

  lemma SelectKeepsOneIff(k: Checksum, s: Store, slot: nat, on: bool, io: Io)
    requires Memory(s) && AtMostOne(k, s.disk)
    ensures KeepsOneIff(k, s, DoSelect(k, s, slot, on, io).0, PutsSecond(k, s, Select(slot, on), io), Takes(io.second))
  {
    hide Decode, Encode, WellFormed, Change, AtMostOne, CutsSafe, OnDisk;
    NothingWritten(k, s, Takes(io.second));
    var previous := FindSelected(s.ram);
    if slot < SOURCES && !on && s.ram[slot].selected {
      SourceOff(s.ram[slot]);
      ChangeDoes(k, s, slot, s.ram[slot].(selected := false), io.first);
      ChangeKeepsOneIff(k, s, slot, s.ram[slot].(selected := false), io.first);
    } else if slot < SOURCES && on && previous != slot && s.ram[slot].active {
      if previous < SOURCES {
        SourceOff(s.ram[previous]);
        ChangeDoes(k, s, previous, s.ram[previous].(selected := false), io.first);
        ChangeKeepsOneIff(k, s, previous, s.ram[previous].(selected := false), io.first);
        if io.first == Done {
          SwitchKeepsOneIff(k, s, previous, slot, io);
        }
      } else {
        SourceOn(s.ram[slot]);
        ChangeDoes(k, s, slot, s.ram[slot].(selected := true), io.second);
        ChangeKeepsOneIff(k, s, slot, s.ram[slot].(selected := true), io.second);
      }
    }
  }

  lemma SettingsFormed(c: Source, volume: nat, mute: bool)
    requires WellFormed(c) && volume <= MAX_VOLUME
    ensures WellFormed(c.(volume := volume)) && WellFormed(c.(muted := mute))
  {
  }

  lemma VolumeKeepsOneIff(k: Checksum, s: Store, slot: nat, volume: nat, io: Io)
    requires Memory(s) && AtMostOne(k, s.disk)
    ensures KeepsOneIff(k, s, Step(k, s, SetVolume(slot, volume), io), PutsSecond(k, s, SetVolume(slot, volume), io),
                        Takes(io.first))
  {
    hide Change, KeepsOneIff, AtMostOne, OnBesides, WellFormed, Takes, Memory;
    MemoryShaped(s);
    NothingWritten(k, s, Takes(io.first));
    if slot < SOURCES && volume <= MAX_VOLUME {
      MemoryAt(s, slot);
      var c := s.ram[slot].(volume := volume);
      SettingsFormed(s.ram[slot], volume, false);
      ChangeKeepsOneIff(k, s, slot, c, io.first);
    }
  }

  lemma MuteKeepsOneIff(k: Checksum, s: Store, slot: nat, mute: bool, io: Io)
    requires Memory(s) && AtMostOne(k, s.disk)
    ensures KeepsOneIff(k, s, Step(k, s, SetMute(slot, mute), io), PutsSecond(k, s, SetMute(slot, mute), io),
                        Takes(io.first))
  {
    hide Change, KeepsOneIff, AtMostOne, OnBesides, WellFormed, Takes, Memory;
    MemoryShaped(s);
    NothingWritten(k, s, Takes(io.first));
    if slot < SOURCES {
      MemoryAt(s, slot);
      var c := s.ram[slot].(muted := mute);
      SettingsFormed(s.ram[slot], 0, mute);
      ChangeKeepsOneIff(k, s, slot, c, io.first);
    }
  }

  lemma UpdateKeepsOneIff(k: Checksum, s: Store, slot: nat, record: seq<Byte>, io: Io)
    requires Memory(s) && AtMostOne(k, s.disk)
    ensures KeepsOneIff(k, s, DoUpdateRecord(k, s, slot, record, io).0,
                        PutsSecond(k, s, UpdateRecord(slot, record), io),
                        Takes(io.first))
  {
    hide Decode, AtMostOne, CutsSafe, OnBesides, OnDisk, Left, Memory;
    MemoryShaped(s);
    NothingWritten(k, s, Takes(io.first));
    if |record| == RECORD && slot < SOURCES && Decode(k, record, slot).Some? {
      RecordOn(k, s.disk, slot, record, Decode(k, record, slot).value);
      OneWrite(k, s.disk, slot, record, io.first);
      var p := Pending(s.disk, slot, record);
      SafeWriteIff(k, p);
      assert NewWrites(s, WriteFile(k, s, slot, record, io.first)) == [p];
    }
  }

  lemma StepDoes(k: Checksum, s: Store, op: Op, io: Io)
    requires Memory(s) && AtMostOne(k, s.disk)
    ensures KeepsOneIff(k, s, Step(k, s, op, io), PutsSecond(k, s, op, io),
                        Takes(if op.Select? then io.second else io.first))
  {
    hide KeepsOneIff, PutsSecond, Memory, AtMostOne, DoSelect, DoUpdateRecord, DoSetVolume, DoSetMute;
    MemoryShaped(s);
    match op {
      case Select(slot, on) => SelectKeepsOneIff(k, s, slot, on, io);
      case UpdateRecord(slot, record) => UpdateKeepsOneIff(k, s, slot, record, io);
      case SetVolume(slot, volume) => VolumeKeepsOneIff(k, s, slot, volume, io);
      case SetMute(slot, mute) => MuteKeepsOneIff(k, s, slot, mute, io);
    }
  }

  /** An operation leaves two files that say selected exactly when a selected record is written, and takes effect, while
      another file says selected. */
  lemma StepKeepsOneIff(k: Checksum, s: Store, op: Op, io: Io)
    requires Memory(s) && AtMostOne(k, s.disk)
    ensures AtMostOne(k, Step(k, s, op, io).disk) <==> !SecondOn(k, s, op, io)
  {
    hide PutsSecond, Memory, AtMostOne, Step, CutsSafe;
    MemoryShaped(s);
    StepDoes(k, s, op, io);
  }

  /** Power may go at any point of any operation: some cut leaves two files that say selected exactly when a selected
      record is written while another file says selected. */
  lemma PowerCutIff(k: Checksum, s: Store, op: Op, io: Io)
    requires Memory(s) && AtMostOne(k, s.disk)
    ensures |s.writes| <= |Step(k, s, op, io).writes|
    ensures CutsSafe(k, NewWrites(s, Step(k, s, op, io))) <==> !PutsSecond(k, s, op, io)
  {
    hide PutsSecond, Memory, AtMostOne, Step, CutsSafe;
    MemoryShaped(s);
    StepDoes(k, s, op, io);
  }

  ghost predicate NoSecondOn(k: Checksum, s: Store, ops: seq<(Op, Io)>)
    requires Shaped(s)
    decreases |ops|
  {
    ops == [] ||
    (var n := |ops| - 1; NoSecondOn(k, s, ops[..n]) && !SecondOn(k, Run(k, s, ops[..n]), ops[n].0, ops[n].1))
  }

  /** One file at most says selected all along a run exactly when no operation of it does that. */
  lemma {:induction false} RunKeepsOneIff(k: Checksum, s: Store, ops: seq<(Op, Io)>)
    requires Memory(s) && AtMostOne(k, s.disk)
    ensures NoSecondOn(k, s, ops) <==> forall n :: 0 <= n <= |ops| ==> AtMostOne(k, Run(k, s, ops[..n]).disk)
    ensures NoSecondOn(k, s, ops) ==> AtMostOne(k, Run(k, s, ops).disk)
    decreases |ops|
  {
    hide Memory, AtMostOne, Step, SecondOn, Run;
    MemoryShaped(s);
    assert ops[..|ops|] == ops;
    RunNil(k, s);
    if ops == [] {
    } else {
      var n := |ops| - 1;
      RunKeepsOneIff(k, s, ops[..n]);
      RunKeepsMemory(k, s, ops[..n]);
      RunSnoc(k, s, ops);
      assert forall m :: 0 <= m <= n ==> ops[..n][..m] == ops[..m];
      if AtMostOne(k, Run(k, s, ops[..n]).disk) {
        StepKeepsOneIff(k, Run(k, s, ops[..n]), ops[n].0, ops[n].1);
      }
    }
  }

  lemma DiskFollowsRam(k: Checksum, s: Store)
    requires Inv(k, s)
    ensures Memory(s) && AtMostOne(k, s.disk)
    ensures forall i :: 0 <= i < SOURCES && FindSelected(s.ram) != i ==> !OnDisk(k, s.disk, i)
  {
    hide Decode, WellFormed;
    forall i | 0 <= i < SOURCES && OnDisk(k, s.disk, i)
      ensures FindSelected(s.ram) == i
    {
      FindFinds(s.ram, i);
    }
  }

  lemma NoSecondWhileFollowing(k: Checksum, s: Store, op: Op, io: Io)
    requires Inv(k, s)
    ensures !PutsSecond(k, s, op, io)
  {
    hide Decode, OnDisk, WellFormed;
    DiskFollowsRam(k, s);
    if !op.Select? && op.slot < SOURCES && s.ram[op.slot].selected {
      FindFinds(s.ram, op.slot);
    }
  }

  /** While files follow memory, no operation writes a selected record next to another: power may go at any point. */
  lemma PowerCutIsSafe(k: Checksum, s: Store, op: Op, io: Io, i: nat, disk: seq<seq<Byte>>)
    requires Inv(k, s)
    ensures |s.writes| <= |Step(k, s, op, io).writes|
    ensures i < |NewWrites(s, Step(k, s, op, io))| && CutDuring(k, NewWrites(s, Step(k, s, op, io))[i], disk) ==>
              AtMostOne(k, disk)
  {
    hide Step, Inv, CutDuring, AtMostOne, PutsSecond;
    Shape(k, s);
    DiskFollowsRam(k, s);
    NoSecondWhileFollowing(k, s, op, io);
    PowerCutIff(k, s, op, io);
  }

  lemma WritesGrow(k: Checksum, s: Store, op: Op, io: Io)
    requires Shaped(s)
    ensures |s.writes| <= |Step(k, s, op, io).writes|
  {
    hide Decode, Encode, Left;
  }

  /** From a successful load, after any run and with power going anywhere in the operation behind it, the next start
      finds one selected source at most: all along exactly when no operation of the run wrote a second selected record,
      and at the cut exactly when the last one does not write one. */
  lemma RestartFindsAtMostOne(k: Checksum, s: Store, ops: seq<(Op, Io)>, op: Op, io: Io)
    requires Shaped(s) && DoLoad(k, s).1
    ensures var loaded := DoLoad(k, s).0;
            var before := Run(k, loaded, ops);
            var after := Step(k, before, op, io);
            && (NoSecondOn(k, loaded, ops) <==>
                  forall n :: 0 <= n <= |ops| ==> AtMostOne(k, Run(k, loaded, ops[..n]).disk))
            && |before.writes| <= |after.writes|
            && (NoSecondOn(k, loaded, ops) ==>
                  AtMostOne(k, before.disk) &&
                  (CutsSafe(k, NewWrites(before, after)) <==> !PutsSecond(k, before, op, io)))
  {
    hide Inv, Memory, Step, Run, DoLoad, AtMostOne, CutsSafe, PutsSecond, NoSecondOn;
    LoadEstablishes(k, s);
    var loaded := DoLoad(k, s).0;
    DiskFollowsRam(k, loaded);
    RunKeepsOneIff(k, loaded, ops);
    RunKeepsMemory(k, loaded, ops);
    var before := Run(k, loaded, ops);
    WritesGrow(k, before, op, io);
    if NoSecondOn(k, loaded, ops) {
      PowerCutIff(k, before, op, io);
    }
  }

  /** A source selected while none is: its record is on the disk, even if the write is reported failed. */
  lemma SelectWrites(k: Checksum, s: Store, slot: nat, w: Wrote)
    requires Shaped(s) && s.ready && FindSelected(s.ram) == SOURCES && slot < SOURCES && s.ram[slot].active
    requires WellFormed(s.ram[slot]) && s.ram[slot].id == slot && (w == Done || w == Late)
    ensures var t := Step(k, s, Select(slot, true), Io(Done, w, false, {}));
            && OnDisk(k, t.disk, slot) && t.ready && (w == Late ==> t.ram == s.ram)
            && forall i :: 0 <= i < SOURCES && i != slot ==> t.disk[i] == s.disk[i]
  {
    hide Decode, Encode, WellFormed;
    SourceOn(s.ram[slot]);
    Encodes(k, s.ram[slot].(selected := true));
  }

  lemma TwoNotLoadable(k: Checksum, disk: seq<seq<Byte>>, a: nat, b: nat)
    requires |disk| == SOURCES && a < SOURCES && b < SOURCES && a != b && OnDisk(k, disk, a) && OnDisk(k, disk, b)
    ensures !Loadable(k, disk)
  {
    hide Decode;
  }

  /** What a late turn-on leads to: the next selection writes a second selected record, and the next load refuses. */
  lemma TwoSelected(k: Checksum, s: Store, a: nat, b: nat)
    requires Inv(k, s) && s.ready && FindSelected(s.ram) == SOURCES
    requires a < SOURCES && b < SOURCES && a != b && s.ram[a].active && s.ram[b].active
    ensures var late := Step(k, s, Select(a, true), Io(Done, Late, false, {}));
            var t := Step(k, late, Select(b, true), Io(Done, Done, false, {}));
            OnDisk(k, t.disk, a) && OnDisk(k, t.disk, b) && !DoLoad(k, t).1
  {
    hide Decode, Encode, WellFormed, Step, Inv;
    Shape(k, s);
    SelectWrites(k, s, a, Late);
    var late := Step(k, s, Select(a, true), Io(Done, Late, false, {}));
    SelectWrites(k, late, b, Done);
    var t := Step(k, late, Select(b, true), Io(Done, Done, false, {}));
    TwoNotLoadable(k, t.disk, a, b);
  }
}
