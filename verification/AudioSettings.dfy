/** What the operations on an audio source are for: the setting asked for is in memory and in the file, nothing else has
    changed, and the next start finds it. */
module AudioSettings {
  import opened Bytes
  import opened AudioRecord
  import opened AudioStore

  /** The other sources are the same, in memory and in their files. */
  ghost predicate OthersSame(s: Store, t: Store, slot: nat) {
    && Shaped(s) && Shaped(t) && t.ready == s.ready
    && forall i :: 0 <= i < SOURCES && i != slot ==> t.ram[i] == s.ram[i] && t.disk[i] == s.disk[i]
  }

  /** Source `slot` is `c` now, in memory and, if it was not before, in its file; the others are the same. */
  ghost predicate Becomes(k: Checksum, s: Store, t: Store, slot: nat, c: Source) {
    && OthersSame(s, t, slot) && slot < SOURCES && t.ram[slot] == c
    && if c == s.ram[slot] then t == s else Decode(k, t.disk[slot], slot) == Some(c)
  }

  /** Nothing has changed in memory, nor in the files of other sources. */
  ghost predicate Untouched(s: Store, t: Store, slot: nat) { OthersSame(s, t, slot) && t.ram == s.ram }

  lemma ChangeCode(k: Checksum, s: Store, slot: nat, c: Source, w: Wrote)
    requires Shaped(s) && slot < SOURCES && WellFormed(c) && c.id == slot
    ensures Change(k, s, slot, c, w).1 == if w == Done then Ok else FileError
  {
    hide Decode, WellFormed, Left;
    Encodes(k, c);
  }

  lemma ChangeSettles(k: Checksum, s: Store, slot: nat, c: Source, w: Wrote)
    requires Memory(s) && slot < SOURCES && WellFormed(c) && c.id == slot && c != s.ram[slot]
    ensures var (t, code) := Change(k, s, slot, c, w);
            && (code == if w == Done then Ok else FileError)
            && if code == Ok then Becomes(k, s, t, slot, c) else Untouched(s, t, slot)
  {
    hide Decode, Encode, WellFormed, Change;
    ChangeDoes(k, s, slot, c, w);
    ChangeCode(k, s, slot, c, w);
  }

  // ---- volume and mute ----

  /** The volume set is the volume asked for, field by field. */
  lemma VolumeIsSet(k: Checksum, s: Store, slot: nat, volume: nat, io: Io)
    requires Memory(s)
    ensures var (t, code) := DoSetVolume(k, s, slot, volume, io);
            && (code == Ok <==>
                  slot < SOURCES && volume <= MAX_VOLUME && s.ready && slot !in io.busy &&
                  (s.ram[slot].volume == volume || io.first == Done))
            && (code == Ok ==>
                  var c := s.ram[slot];
                  Becomes(k, s, t, slot, Source(c.id, c.kind, c.active, c.muted, c.selected, volume, c.name)))
            && (code != Ok ==> Untouched(s, t, slot) && (code == FileError || t == s))
  {
    hide Decode, WellFormed, Change;
    if slot < SOURCES && volume <= MAX_VOLUME {
      MemoryAt(s, slot);
      SettingsFormed(s.ram[slot], volume, false);
      if s.ram[slot].volume != volume {
        ChangeSettles(k, s, slot, s.ram[slot].(volume := volume), io.first);
      }
    }
  }

  /** So is the mute state. */
  lemma MuteIsSet(k: Checksum, s: Store, slot: nat, mute: bool, io: Io)
    requires Memory(s)
    ensures var (t, ok) := DoSetMute(k, s, slot, mute, io);
            && (ok <==>
                  slot < SOURCES && s.ready && slot !in io.busy && (s.ram[slot].muted == mute || io.first == Done))
            && (ok ==>
                  var c := s.ram[slot];
                  Becomes(k, s, t, slot, Source(c.id, c.kind, c.active, mute, c.selected, c.volume, c.name)))
            && (!ok ==> Untouched(s, t, slot))
  {
    hide Decode, WellFormed, Change;
    if slot < SOURCES {
      MemoryAt(s, slot);
      SettingsFormed(s.ram[slot], 0, mute);
      if s.ram[slot].muted != mute {
        ChangeSettles(k, s, slot, s.ram[slot].(muted := mute), io.first);
      }
    }
  }

  // ---- selection ----

  /** The source with its selection as given. */
  function WithSelected(c: Source, on: bool): Source {
    Source(c.id, c.kind, c.active, c.muted, on, c.volume, c.name)
  }

  /** After a deselection that succeeds the source is not selected, neither in memory nor, if files followed memory, in
      its file. */
  lemma DeselectedIsOff(k: Checksum, s: Store, slot: nat, io: Io)
    requires Memory(s)
    ensures var (t, code) := DoSelect(k, s, slot, false, io);
            && (code == Ok <==>
                  slot < SOURCES && s.ready && !io.selectionBusy && slot !in io.busy &&
                  (s.ram[slot].selected ==> io.first == Done))
            && (code == Ok ==>
                  && Becomes(k, s, t, slot, WithSelected(s.ram[slot], false))
                  && (OnDisk(k, t.disk, slot) <==> OnDisk(k, s.disk, slot) && !s.ram[slot].selected)
                  && (Inv(k, s) ==> !OnDisk(k, t.disk, slot)))
            && (code != Ok ==> Untouched(s, t, slot))
  {
    hide Decode, WellFormed, Change;
    if slot < SOURCES {
      MemoryAt(s, slot);
      SourceOff(s.ram[slot]);
      if s.ram[slot].selected {
        ChangeSettles(k, s, slot, s.ram[slot].(selected := false), io.first);
      }
    }
  }

  /** Memory after a selection of `slot` that got as far as turning off the source that was selected before. */
  function PreviousOff(ram: seq<Source>): (off: seq<Source>)
    ensures |off| == |ram|
  {
    var p := FindSelected(ram);
    if p < |ram| then ram[p := WithSelected(ram[p], false)] else ram
  }

  /** What a selection comes to: which code, which memory, and which files it rewrites to what. */
  ghost predicate Selects(k: Checksum, s: Store, t: Store, code: Code, slot: nat, io: Io) {
    var p := FindSelected(s.ram);
    && Shaped(s) && Shaped(t) && t.ready == s.ready
    && (code == Ok <==>
          slot < SOURCES && s.ready && !io.selectionBusy &&
          (p == slot || (TurnsOn(k, s, slot, io) && io.second == Done)))
    && (forall i :: 0 <= i < SOURCES && i != slot && i != p ==> t.disk[i] == s.disk[i])
    && (code == Ok && p == slot ==> t == s)
    && (code == Ok && p != slot ==>
          && t.ram == PreviousOff(s.ram)[slot := WithSelected(s.ram[slot], true)]
          && Decode(k, t.disk[slot], slot) == Some(t.ram[slot])
          && (p < SOURCES ==> Decode(k, t.disk[p], p) == Some(t.ram[p])))
    && (code != Ok ==> t.ram == if TurnsOn(k, s, slot, io) then PreviousOff(s.ram) else s.ram)
  }

  lemma SwitchSelects(k: Checksum, s: Store, slot: nat, io: Io)
    requires Memory(s) && TurnsOn(k, s, slot, io)
    ensures var (t, code) := DoSelect(k, s, slot, true, io);
            Selects(k, s, t, code, slot, io)
  {
    hide Decode, WellFormed, Change, Memory;
    MemoryShaped(s);
    MemoryAt(s, slot);
    var p := FindSelected(s.ram);
    SourceOn(s.ram[slot]);
    if p < SOURCES {
      MemoryAt(s, p);
      SourceOff(s.ram[p]);
      ChangeSettles(k, s, p, s.ram[p].(selected := false), io.first);
      var t := Change(k, s, p, s.ram[p].(selected := false), io.first).0;
      ChangeKeepsMemory(k, s, p, s.ram[p].(selected := false), io.first);
      assert t.ram == PreviousOff(s.ram);
      ChangeSettles(k, t, slot, t.ram[slot].(selected := true), io.second);
    } else {
      ChangeSettles(k, s, slot, s.ram[slot].(selected := true), io.second);
    }
  }

  lemma PreviousStays(k: Checksum, s: Store, slot: nat, io: Io)
    requires Memory(s) && !TurnsOn(k, s, slot, io)
    ensures var (t, code) := DoSelect(k, s, slot, true, io);
            Selects(k, s, t, code, slot, io)
  {
    hide Decode, WellFormed, Change, Memory;
    MemoryShaped(s);
    var p := FindSelected(s.ram);
    if p < SOURCES {
      MemoryAt(s, p);
      SourceOff(s.ram[p]);
      ChangeSettles(k, s, p, s.ram[p].(selected := false), io.first);
    }
  }

  lemma SelectDoes(k: Checksum, s: Store, slot: nat, io: Io)
    requires Memory(s)
    ensures var (t, code) := DoSelect(k, s, slot, true, io);
            Selects(k, s, t, code, slot, io)
  {
    hide DoSelect, Selects, Memory, TurnsOn;
    MemoryShaped(s);
    if TurnsOn(k, s, slot, io) {
      SwitchSelects(k, s, slot, io);
    } else {
      PreviousStays(k, s, slot, io);
    }
  }

  /** After a selection that succeeds that source, and no other, is selected in memory, and nothing else about any
      source has changed. */
  lemma SelectedIsOn(k: Checksum, s: Store, slot: nat, io: Io)
    requires Memory(s) && DoSelect(k, s, slot, true, io).1 == Ok
    ensures var t := DoSelect(k, s, slot, true, io).0;
            slot < SOURCES && forall i :: 0 <= i < SOURCES ==> t.ram[i] == WithSelected(s.ram[i], i == slot)
  {
    hide DoSelect, TurnsOn, Decode, WellFormed;
    SelectDoes(k, s, slot, io);
    forall i | 0 <= i < SOURCES && s.ram[i].selected
      ensures FindSelected(s.ram) == i
    {
      FindFinds(s.ram, i);
    }
  }

  // ---- whole records ----

  lemma RecordIsSet(k: Checksum, s: Store, slot: nat, record: seq<Byte>, io: Io)
    requires Memory(s)
    ensures var (t, code) := DoUpdateRecord(k, s, slot, record, io);
            var p := FindSelected(s.ram);
            && (code == Ok <==>
                  && |record| == RECORD && slot < SOURCES && s.ready && Decode(k, record, slot).Some?
                  && !io.selectionBusy && slot !in io.busy && io.first == Done
                  && (Decode(k, record, slot).value.selected ==> p == slot || p == SOURCES))
            && (code == Ok ==>
                  OthersSame(s, t, slot) && t.disk[slot] == record && Decode(k, record, slot) == Some(t.ram[slot]))
            && (code != Ok ==> Untouched(s, t, slot))
  {
    hide Decode, WellFormed;
  }

  /** A load that succeeds puts into memory what the files say; one that fails leaves memory alone. */
  lemma LoadReads(k: Checksum, s: Store)
    requires Shaped(s)
    ensures var (t, ok) := DoLoad(k, s);
            && t.disk == s.disk && t.writes == s.writes && t.ready
            && (ok ==> forall i :: 0 <= i < SOURCES ==> Decode(k, s.disk[i], i) == Some(t.ram[i]))
            && (!ok ==> t.ram == s.ram)
            && (ok <==> AtMostOne(k, s.disk) && forall i :: 0 <= i < SOURCES ==> Decode(k, s.disk[i], i).Some?)
  {
    hide Decode;
  }

  // ---- what the next start finds ----

  /** Every file says what memory says. */
  ghost predicate Mirrored(k: Checksum, s: Store) {
    Memory(s) && forall i :: 0 <= i < SOURCES ==> Decode(k, s.disk[i], i) == Some(s.ram[i])
  }

  /** A write leaves something else in the file of `slot` than its result says. */
  predicate Spoils(k: Checksum, slot: nat, w: Wrote) { w == Late || (w.Torn? && Decode(k, w.junk, slot).None?) }

  /** The operation gets as far as a write that does that. */
  predicate SpoilsFile(k: Checksum, s: Store, op: Op, io: Io)
    requires Shaped(s)
  {
    var p := FindSelected(s.ram);
    && op.slot < SOURCES && s.ready && op.slot !in io.busy
    && match op
       case Select(slot, on) =>
         && !io.selectionBusy
         && if !on then s.ram[slot].selected && Spoils(k, slot, io.first)
            else
              && p != slot && s.ram[slot].active && (p < SOURCES ==> p !in io.busy)
              && if p < SOURCES && io.first != Done then Spoils(k, p, io.first) else Spoils(k, slot, io.second)
       case SetVolume(slot, volume) => volume <= MAX_VOLUME && s.ram[slot].volume != volume && Spoils(k, slot, io.first)
       case SetMute(slot, mute) => s.ram[slot].muted != mute && Spoils(k, slot, io.first)
       case UpdateRecord(slot, record) =>
         && !io.selectionBusy && |record| == RECORD && Decode(k, record, slot).Some?
         && (Decode(k, record, slot).value.selected ==> p == slot || p == SOURCES)
         && Spoils(k, slot, io.first) && (io.first == Late ==> Decode(k, record, slot) != Some(s.ram[slot]))
  }

  lemma MirroredMemory(k: Checksum, s: Store)
    requires Mirrored(k, s)
    ensures Memory(s) && Shaped(s)
    ensures forall i :: 0 <= i < SOURCES ==> Decode(k, s.disk[i], i) == Some(s.ram[i])
  {
  }

  /** One file and memory rewritten to something new. */
  lemma ChangeMirrors(k: Checksum, s: Store, slot: nat, c: Source, w: Wrote)
    requires Mirrored(k, s) && slot < SOURCES && WellFormed(c) && c.id == slot && c != s.ram[slot]
    requires c.selected ==> FindSelected(s.ram) == slot || FindSelected(s.ram) == SOURCES
    ensures Mirrored(k, Change(k, s, slot, c, w).0) <==> !Spoils(k, slot, w)
  {
    hide Decode, Encode, WellFormed, Change, Memory;
    MirroredMemory(k, s);
    ChangeDoes(k, s, slot, c, w);
    ChangeKeepsMemory(k, s, slot, c, w);
    var t := Change(k, s, slot, c, w).0;
    assert forall i :: 0 <= i < SOURCES && i != slot ==> t.disk[i] == s.disk[i] && t.ram[i] == s.ram[i];
    assert Decode(k, t.disk[slot], slot) == Some(t.ram[slot]) <==> !Spoils(k, slot, w);
  }

  lemma SettingMirrors(k: Checksum, s: Store, op: Op, io: Io)
    requires Mirrored(k, s) && (op.SetVolume? || op.SetMute?)
    ensures Mirrored(k, Step(k, s, op, io)) <==> !SpoilsFile(k, s, op, io)
  {
    hide Decode, WellFormed, Change, Mirrored, Memory, Spoils;
    MirroredMemory(k, s);
    MemoryShaped(s);
    if op.slot < SOURCES {
      var c := s.ram[op.slot];
      MemoryAt(s, op.slot);
      if c.selected {
        FindFinds(s.ram, op.slot);
      }
      if op.SetVolume? && op.volume <= MAX_VOLUME && c.volume != op.volume {
        SettingsFormed(c, op.volume, false);
        ChangeMirrors(k, s, op.slot, c.(volume := op.volume), io.first);
      } else if op.SetMute? && c.muted != op.mute {
        SettingsFormed(c, 0, op.mute);
        ChangeMirrors(k, s, op.slot, c.(muted := op.mute), io.first);
      }
    }
  }

  lemma DeselectMirrors(k: Checksum, s: Store, slot: nat, io: Io)
    requires Mirrored(k, s)
    ensures Mirrored(k, DoSelect(k, s, slot, false, io).0) <==> !SpoilsFile(k, s, Select(slot, false), io)
  {
    hide Decode, WellFormed, Change, Mirrored, Memory, Spoils;
    MirroredMemory(k, s);
    if slot < SOURCES && s.ram[slot].selected {
      MemoryAt(s, slot);
      SourceOff(s.ram[slot]);
      ChangeMirrors(k, s, slot, s.ram[slot].(selected := false), io.first);
    }
  }

  lemma SwitchMirrors(k: Checksum, s: Store, previous: nat, slot: nat, io: Io)
    requires Mirrored(k, s) && slot < SOURCES && previous < SOURCES && slot != previous
    requires s.ram[slot].active && FindSelected(s.ram) == previous
    ensures var (t, code) := Change(k, s, previous, s.ram[previous].(selected := false), io.first);
            && (code == Ok <==> io.first == Done)
            && (code != Ok ==> (Mirrored(k, t) <==> !Spoils(k, previous, io.first)))
            && (code == Ok ==>
                  (Mirrored(k, Change(k, t, slot, t.ram[slot].(selected := true), io.second).0) <==>
                   !Spoils(k, slot, io.second)))
  {
    hide Decode, WellFormed, Change, Encode, Left, Mirrored, Memory;
    MirroredMemory(k, s);
    MemoryAt(s, previous);
    MemoryAt(s, slot);
    MemoryShaped(s);
    SourceOff(s.ram[previous]);
    SourceOn(s.ram[slot]);
    var off := s.ram[previous].(selected := false);
    ChangeDoes(k, s, previous, off, io.first);
    ChangeMirrors(k, s, previous, off, io.first);
    var t := Change(k, s, previous, off, io.first).0;
    if io.first == Done {
      NoneSelected(s.ram, previous);
      ChangeMirrors(k, t, slot, t.ram[slot].(selected := true), io.second);
    }
  }

  lemma SelectMirrors(k: Checksum, s: Store, slot: nat, io: Io)
    requires Mirrored(k, s)
    ensures Mirrored(k, DoSelect(k, s, slot, true, io).0) <==> !SpoilsFile(k, s, Select(slot, true), io)
  {
    hide Decode, WellFormed, Change, Mirrored, Memory, Spoils;
    MirroredMemory(k, s);
    MemoryShaped(s);
    var p := FindSelected(s.ram);
    if slot < SOURCES && p != slot && s.ram[slot].active {
      if p < SOURCES {
        SwitchMirrors(k, s, p, slot, io);
      } else {
        MemoryAt(s, slot);
        SourceOn(s.ram[slot]);
        ChangeMirrors(k, s, slot, s.ram[slot].(selected := true), io.second);
      }
    }
  }

  lemma RecordMirrors(k: Checksum, s: Store, slot: nat, record: seq<Byte>, io: Io)
    requires Mirrored(k, s)
    ensures Mirrored(k, DoUpdateRecord(k, s, slot, record, io).0) <==> !SpoilsFile(k, s, UpdateRecord(slot, record), io)
  {
    hide Decode, WellFormed, Memory;
    MirroredMemory(k, s);
    UpdateKeepsMemory(k, s, slot, record, io);
    var t := DoUpdateRecord(k, s, slot, record, io).0;
    if slot < SOURCES {
      assert forall i :: 0 <= i < SOURCES && i != slot ==> t.disk[i] == s.disk[i] && t.ram[i] == s.ram[i];
      assert Mirrored(k, t) <==> Decode(k, t.disk[slot], slot) == Some(t.ram[slot]);
    }
  }

  /** An operation keeps files and memory in step exactly unless a write of it is reported failed although it took
      effect, or destroys the file. */
  lemma StepKeepsMirrorIff(k: Checksum, s: Store, op: Op, io: Io)
    requires Mirrored(k, s)
    ensures Mirrored(k, Step(k, s, op, io)) <==> !SpoilsFile(k, s, op, io)
  {
    hide Mirrored, SpoilsFile, DoSelect, DoUpdateRecord, DoSetVolume, DoSetMute;
    match op {
      case Select(slot, on) =>
        if on {
          SelectMirrors(k, s, slot, io);
        } else {
          DeselectMirrors(k, s, slot, io);
        }
      case UpdateRecord(slot, record) => RecordMirrors(k, s, slot, record, io);
      case _ => SettingMirrors(k, s, op, io);
    }
  }

  /** A start after `s` finds in the files what memory said. */
  lemma MirrorRestarts(k: Checksum, s: Store)
    requires Mirrored(k, s)
    ensures DoLoad(k, s) == (s.(ready := true), true)
  {
    hide Decode, WellFormed;
    assert forall i :: 0 <= i < SOURCES ==> OnDisk(k, s.disk, i) == s.ram[i].selected;
    assert LoadedRam(k, s.disk) == s.ram;
  }

  ghost predicate NoneSpoiled(k: Checksum, s: Store, ops: seq<(Op, Io)>)
    requires Shaped(s)
    decreases |ops|
  {
    ops == [] ||
    (var n := |ops| - 1; NoneSpoiled(k, s, ops[..n]) && !SpoilsFile(k, Run(k, s, ops[..n]), ops[n].0, ops[n].1))
  }

  lemma {:induction false} RunKeepsMirror(k: Checksum, s: Store, ops: seq<(Op, Io)>)
    requires Mirrored(k, s)
    ensures Shaped(s) && (NoneSpoiled(k, s, ops) <==> forall n :: 0 <= n <= |ops| ==> Mirrored(k, Run(k, s, ops[..n])))
    ensures NoneSpoiled(k, s, ops) ==> Mirrored(k, Run(k, s, ops))
    decreases |ops|
  {
    hide Mirrored, Step, SpoilsFile, Run;
    MirroredMemory(k, s);
    assert ops[..|ops|] == ops;
    RunNil(k, s);
    if ops == [] {
    } else {
      var n := |ops| - 1;
      RunKeepsMirror(k, s, ops[..n]);
      RunSnoc(k, s, ops);
      assert forall m :: 0 <= m <= n ==> ops[..n][..m] == ops[..m];
      if Mirrored(k, Run(k, s, ops[..n])) {
        StepKeepsMirrorIff(k, Run(k, s, ops[..n]), ops[n].0, ops[n].1);
      }
    }
  }

  lemma LoadMirrors(k: Checksum, s: Store)
    requires Shaped(s) && DoLoad(k, s).1
    ensures Mirrored(k, DoLoad(k, s).0)
  {
    hide Decode, WellFormed;
    LoadEstablishes(k, s);
  }

  /** From a successful load, over every run in which no write says something else than it does: a restart finds every
      setting as it was. */
  lemma RestartFindsSettings(k: Checksum, s: Store, ops: seq<(Op, Io)>)
    requires Shaped(s) && DoLoad(k, s).1 && NoneSpoiled(k, DoLoad(k, s).0, ops)
    ensures var t := Run(k, DoLoad(k, s).0, ops);
            DoLoad(k, t) == (t.(ready := true), true)
  {
    hide Mirrored, Run, Decode;
    LoadMirrors(k, s);
    RunKeepsMirror(k, DoLoad(k, s).0, ops);
    MirrorRestarts(k, Run(k, DoLoad(k, s).0, ops));
  }
}
