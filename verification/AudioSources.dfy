/** The audio-source configuration as the firmware runs it: sources in memory updated in place and rolled back around
    file writes, under one lock per source and a lock for selection changes. */
module AudioSources {
  import opened Bytes
  import opened AudioRecord
  import opened AudioStore

  lemma ShortFile(k: Checksum, r: seq<Byte>, id: nat)
    requires |r| != RECORD
    ensures Decode(k, r, id) == None
  {
  }

  lemma NotLoadable(k: Checksum, disk: seq<seq<Byte>>, i: nat)
    requires |disk| == SOURCES && i < SOURCES && Decode(k, disk[i], i).None?
    ensures !Loadable(k, disk)
  {
  }

  /** Writing a file does not look at memory. */
  lemma FileOnly(k: Checksum, s: Store, c: Source, w: Wrote, ram: seq<Source>)
    requires Shaped(s) && |ram| == SOURCES
    ensures UpdateFile(k, s.(ram := ram), c, w) == (UpdateFile(k, s, c, w).0.(ram := ram), UpdateFile(k, s, c, w).1)
  {
    hide Encode, Left;
  }

  lemma SelectedSnoc(s: seq<Source>, c: Source)
    ensures OneSelected(s + [c]) <==> OneSelected(s) && (c.selected ==> forall i :: 0 <= i < |s| ==> !s[i].selected)
  {
    var t := s + [c];
    assert forall i :: 0 <= i < |s| ==> t[i] == s[i];
    assert t[|s|] == c;
  }

  class Sources {
    const crc32: Checksum
    const ram: array<Source>
    const disk: array<seq<Byte>>
    const locks: array<bool>
    var selectionLocked: bool
    var ready: bool
    ghost var writes: seq<Pending>

    ghost predicate Shape()
      reads this
    {
      && ram.Length == SOURCES && disk.Length == SOURCES && locks.Length == SOURCES
      && ram as object != disk && ram as object != locks && disk as object != locks
    }

    ghost predicate Free()
      reads this, locks
      requires Shape()
    {
      forall i :: 0 <= i < SOURCES ==> !locks[i]
    }

    /** Between operations no lock is held. */
    ghost predicate Valid()
      reads this, locks
    {
      Shape() && !selectionLocked && Free()
    }

    ghost function View(): (s: Store)
      reads this, ram, disk
      requires Shape()
      ensures Shaped(s)
    {
      Store(ready, ram[..], disk[..], writes)
    }

    constructor (checksum: Checksum, files: seq<seq<Byte>>)
      requires |files| == SOURCES
      ensures Valid() && fresh(ram) && fresh(disk) && fresh(locks)
      ensures crc32 == checksum && View() == Store(false, ram[..], files, [])
      ensures forall i :: 0 <= i < SOURCES ==> ram[i] == Source(0, TYPE_NONE, false, false, false, 0, [])
    {
      crc32 := checksum;
      ram := new Source[SOURCES](_ => Source(0, TYPE_NONE, false, false, false, 0, []));
      disk := new seq<Byte>[SOURCES](i requires 0 <= i < SOURCES => files[i]);
      locks := new bool[SOURCES](_ => false);
      selectionLocked, ready, writes := false, false, [];
      new;
      assert disk[..] == files;
    }

    // ---- locks ----

    method ReleaseBelow(n: nat)
      requires Shape() && n <= SOURCES && forall j :: n <= j < SOURCES ==> !locks[j]
      modifies locks
      ensures Free()
    {
      for i := 0 to n
        invariant forall j :: 0 <= j < SOURCES && locks[j] ==> i <= j < n
      {
        if locks[i] {
          locks[i] := false;
        }
      }
    }

    /** Both sources locked, lower number first, or none if one of them cannot be had. */
    method LockSources(first: nat, second: nat, busy: set<nat>) returns (ok: bool)
      requires Shape() && Free()
      modifies locks
      ensures ok <==> forall i :: 0 <= i < SOURCES && (i == first || i == second) ==> i !in busy
      ensures forall i :: 0 <= i < SOURCES ==> locks[i] == (ok && (i == first || i == second))
    {
      for i := 0 to SOURCES
        invariant forall j :: 0 <= j < SOURCES ==> locks[j] == (j < i && (j == first || j == second))
        invariant forall j :: 0 <= j < i && (j == first || j == second) ==> j !in busy
      {
        if i == first || i == second {
          if i in busy {
            ReleaseBelow(i);
            return false;
          }
          locks[i] := true;
        }
      }
      return true;
    }

    method UnlockSources(first: nat, second: nat)
      requires Shape()
      modifies locks
      ensures forall i :: 0 <= i < SOURCES ==> locks[i] == (i != first && i != second && old(locks[i]))
    {
      var i := SOURCES;
      while i > 0
        invariant 0 <= i <= SOURCES
        invariant forall j :: 0 <= j < SOURCES ==>
                    locks[j] == ((j < i || (j != first && j != second)) && old(locks[j]))
      {
        i := i - 1;
        if i == first || i == second {
          locks[i] := false;
        }
      }
    }

    /** Locks are dropped at the end of every operation, on every path. */
    method Release(first: nat, second: nat)
      requires Shape() && forall i :: 0 <= i < SOURCES && locks[i] ==> i == first || i == second
      modifies locks, this`selectionLocked
      ensures Valid()
    {
      UnlockSources(first, second);
      selectionLocked := false;
    }

    // ---- files ----

    method WriteToFile(slot: nat, record: seq<Byte>, w: Wrote)
      requires Shape() && slot < SOURCES
      modifies disk, this`writes
      ensures View() == WriteFile(crc32, old(View()), slot, record, w)
      ensures w == Done ==> disk[slot] == record
    {
      writes := writes + [Pending(disk[..], slot, record)];
      disk[slot] := Left(crc32, disk[slot], slot, record, w);
    }

    method UpdateSourceFile(c: Source, w: Wrote) returns (code: Code)
      requires Shape()
      modifies disk, this`writes
      ensures (View(), code) == UpdateFile(crc32, old(View()), c, w)
    {
      hide Encode, Left;
      var record := new Byte[RECORD];
      var ok := EncodeRecord(crc32, c, record);
      if !ok {
        return BadExchange;
      }
      var slot := c.id % 256;
      if slot >= SOURCES {
        return FileError;
      }
      WriteToFile(slot, record[..], w);
      return if w == Done then Ok else FileError;
    }

    /** Stores `c` in memory, writes its file, and puts the old value back if that fails. */
    method ChangeSource(slot: nat, c: Source, w: Wrote) returns (code: Code)
      requires Shape() && slot < SOURCES
      modifies ram, disk, this`writes
      ensures (View(), code) == Change(crc32, old(View()), slot, c, w)
      ensures ram[..] == if code == Ok then old(ram[..])[slot := c] else old(ram[..])
    {
      hide UpdateFile;
      var previous := ram[slot];
      ghost var was := View();
      ram[slot] := c;
      assert ram[..] == was.ram[slot := c];
      FileOnly(crc32, was, c, w, ram[..]);
      code := UpdateSourceFile(c, w);
      if code != Ok {
        ram[slot] := previous;
        assert ram[..] == was.ram;
      }
    }

    method FindSelectedSource() returns (i: nat)
      requires Shape()
      ensures i == FindSelected(ram[..])
    {
      i := 0;
      while i < SOURCES
        invariant i <= SOURCES && forall j :: 0 <= j < i ==> !ram[j].selected
      {
        if ram[i].selected {
          break;
        }
        i := i + 1;
      }
      assert forall j :: 0 <= j < i ==> !ram[..][j].selected;
    }

    // ---- operations ----

    /** The old source is persisted as unselected first, then the new one as selected. */
    method Switch(previous: nat, slot: nat, io: Io) returns (code: Code)
      requires Shape() && slot < SOURCES && previous <= SOURCES
      modifies ram, disk, this`writes
      ensures var s := old(View());
              (View(), code) ==
              if previous < SOURCES then
                var (t, c) := Change(crc32, s, previous, s.ram[previous].(selected := false), io.first);
                if c != Ok then (t, c) else Change(crc32, t, slot, t.ram[slot].(selected := true), io.second)
              else Change(crc32, s, slot, s.ram[slot].(selected := true), io.second)
      ensures code == Ok && previous != slot ==> ram[slot] == old(ram[slot]).(selected := true)
    {
      hide Change;
      if previous < SOURCES {
        code := ChangeSource(previous, ram[previous].(selected := false), io.first);
        if code != Ok {
          return code;
        }
      }
      code := ChangeSource(slot, ram[slot].(selected := true), io.second);
    }

    method SelectSource(slot: nat, on: bool, io: Io) returns (code: Code)
      requires Valid()
      modifies this`selectionLocked, this`writes, ram, disk, locks
      ensures Valid() && (View(), code) == DoSelect(crc32, old(View()), slot, on, io)
      ensures code == Ok ==> slot < SOURCES && ram[slot] == old(ram[slot]).(selected := on)
    {
      hide Change;
      if slot >= SOURCES {
        return InvalidArgument;
      }
      if !ready {
        return AccessDenied;
      }
      if io.selectionBusy {
        return Busy;
      }
      selectionLocked := true;
      var previous := FindSelectedSource();
      if !on {
        var locked := LockSources(slot, slot, io.busy);
        if !locked {
          selectionLocked := false;
          return Busy;
        }
        code := Ok;
        if ram[slot].selected {
          code := ChangeSource(slot, ram[slot].(selected := false), io.first);
        }
        Release(slot, slot);
        return code;
      }
      if previous == slot {
        selectionLocked := false;
        return Ok;
      }
      var locked := LockSources(previous, slot, io.busy);
      if !locked {
        selectionLocked := false;
        return Busy;
      }
      if !ram[slot].active {
        Release(previous, slot);
        return AccessDenied;
      }
      code := Switch(previous, slot, io);
      Release(previous, slot);
    }

    method UpdateVolume(slot: nat, volume: nat, io: Io) returns (code: Code)
      requires Valid()
      modifies this`selectionLocked, this`writes, ram, disk, locks
      ensures Valid() && (View(), code) == DoSetVolume(crc32, old(View()), slot, volume, io)
      ensures code == Ok ==> slot < SOURCES && ram[slot] == old(ram[slot]).(volume := volume)
      ensures code != Ok ==> ram[..] == old(ram[..])
    {
      hide Change;
      if slot >= SOURCES || volume > MAX_VOLUME {
        return InvalidArgument;
      }
      if !ready {
        return AccessDenied;
      }
      var locked := LockSources(slot, slot, io.busy);
      if !locked {
        return Busy;
      }
      code := Ok;
      if ram[slot].volume != volume {
        code := ChangeSource(slot, ram[slot].(volume := volume), io.first);
      }
      Release(slot, slot);
    }

    method UpdateMute(slot: nat, mute: bool, io: Io) returns (ok: bool)
      requires Valid()
      modifies this`selectionLocked, this`writes, ram, disk, locks
      ensures Valid() && (View(), ok) == DoSetMute(crc32, old(View()), slot, mute, io)
      ensures ok ==> slot < SOURCES && ram[slot] == old(ram[slot]).(muted := mute)
      ensures !ok ==> ram[..] == old(ram[..])
    {
      hide Change;
      if slot >= SOURCES || !ready || slot in io.busy {
        return false;
      }
      locks[slot] := true;
      ok := true;
      if ram[slot].muted != mute {
        var code := ChangeSource(slot, ram[slot].(muted := mute), io.first);
        ok := code == Ok;
      }
      Release(slot, slot);
    }

    method UpdateConfiguration(record: seq<Byte>, slot: nat, io: Io) returns (code: Code)
      requires Valid()
      modifies this`selectionLocked, this`writes, ram, disk, locks
      ensures Valid() && (View(), code) == DoUpdateRecord(crc32, old(View()), slot, record, io)
      ensures code == Ok ==> slot < SOURCES && disk[slot] == record && Decode(crc32, record, slot) == Some(ram[slot])
      ensures code != Ok ==> ram[..] == old(ram[..])
    {
      hide Decode, Left;
      if |record| != RECORD || slot >= SOURCES {
        return InvalidArgument;
      }
      if !ready {
        return AccessDenied;
      }
      var buffer := new Byte[RECORD](i requires 0 <= i < RECORD => record[i]);
      assert buffer[..] == record;
      var c := DecodeRecord(crc32, buffer, slot);
      assert c == Decode(crc32, record, slot);
      if c.None? {
        return InvalidArgument;
      }
      if io.selectionBusy {
        return Busy;
      }
      selectionLocked := true;
      var locked := LockSources(slot, slot, io.busy);
      if !locked {
        selectionLocked := false;
        return Busy;
      }
      var previous := FindSelectedSource();
      if c.value.selected && previous < SOURCES && previous != slot {
        Release(slot, slot);
        return Already;
      }
      WriteToFile(slot, record, io.first);
      code := IoError;
      if io.first == Done {
        ram[slot] := c.value;
        code := Ok;
      }
      Release(slot, slot);
    }

    method CountSelected(a: array<Source>) returns (n: nat)
      requires a.Length == SOURCES
      ensures n <= 1 <==> OneSelected(a[..])
    {
      n := 0;
      for i := 0 to SOURCES
        invariant n == 0 <==> forall j :: 0 <= j < i ==> !a[j].selected
        invariant n <= 1 <==> OneSelected(a[..i])
      {
        assert a[..i + 1] == a[..i] + [a[i]];
        SelectedSnoc(a[..i], a[i]);
        if a[i].selected {
          n := n + 1;
        }
      }
      assert a[..SOURCES] == a[..];
    }

    /** Reads every file, checks that one source at most is selected, and only then replaces what is in memory. */
    method Load() returns (ok: bool)
      requires Valid()
      modifies this`ready, ram
      ensures Valid() && (View(), ok) == DoLoad(crc32, old(View()))
    {
      hide Decode;
      ready := true;
      var temporary := new Source[SOURCES];
      for i := 0 to SOURCES
        invariant ready && ram[..] == old(ram[..])
        invariant forall j :: 0 <= j < i ==> Decode(crc32, disk[j], j) == Some(temporary[j])
      {
        if |disk[i]| != RECORD {
          ShortFile(crc32, disk[i], i);
          NotLoadable(crc32, disk[..], i);
          return false;
        }
        var buffer := new Byte[RECORD](j requires 0 <= j < |disk[i]| reads this, disk => disk[i][j]);
        assert buffer[..] == disk[i];
        var c := DecodeRecord(crc32, buffer, i);
        if c.None? {
          NotLoadable(crc32, disk[..], i);
          return false;
        }
        temporary[i] := c.value;
      }
      var selected := CountSelected(temporary);
      assert forall i :: 0 <= i < SOURCES ==> OnDisk(crc32, disk[..], i) == temporary[i].selected;
      if selected > 1 {
        return false;
      }
      forall i | 0 <= i < SOURCES {
        ram[i] := temporary[i];
      }
      assert disk[..] == old(disk[..]) && ram[..] == LoadedRam(crc32, disk[..]);
      return true;
    }
  }
}
