/** The external NOR flash: a chip that can only clear bits inside a page and set them by whole sectors, the driver that
    splits accesses into what the chip takes, and the range checks above it. */
module FlashDriver {
  import opened Bytes

  const DEVICE_SIZE: nat := 8 * 1024 * 1024
  const PAGE: nat := 256
  const SECTOR: nat := 4096
  const READ_CHUNK: nat := 256
  const QUAD_CHUNK: nat := 4096

  datatype Code = Ok | InvalidArgument | NoDevice | IoError

  // ---- the chip ----

  function And(a: Byte, b: Byte): Byte { a & b }

  /** Programming `data` at `at`: a byte past the end of the page lands at its start. */
  function Programmed(cells: seq<Byte>, at: nat, data: seq<Byte>): (c: seq<Byte>)
    requires |data| <= PAGE
    ensures |c| == |cells|
  {
    seq(|cells|, j requires 0 <= j < |cells| =>
      if j / PAGE == at / PAGE && (j - at) % PAGE < |data| then And(cells[j], data[(j - at) % PAGE]) else cells[j])
  }

  function SectorErased(cells: seq<Byte>, at: nat): (c: seq<Byte>)
    ensures |c| == |cells|
  {
    seq(|cells|, j requires 0 <= j < |cells| => if j / SECTOR == at / SECTOR then 0xFF else cells[j])
  }

  /** What a caller wants: every byte of `data` ANDed to its own place. */
  function Merged(cells: seq<Byte>, at: nat, data: seq<Byte>): (c: seq<Byte>)
    ensures |c| == |cells|
  {
    seq(|cells|, j requires 0 <= j < |cells| => if at <= j < at + |data| then And(cells[j], data[j - at]) else cells[j])
  }

  function Erased(cells: seq<Byte>, at: nat, n: nat): (c: seq<Byte>)
    ensures |c| == |cells|
  {
    seq(|cells|, j requires 0 <= j < |cells| => if at <= j < at + n then 0xFF else cells[j])
  }

  /** The address as three bytes on the wire. */
  function AddressBytes(a: nat): (b: seq<Byte>)
    ensures |b| == 3
  {
    [(a / 0x1_0000 % 256) as Byte, (a / 256 % 256) as Byte, (a % 256) as Byte]
  }

  function AddressOf(b: seq<Byte>): nat
    requires |b| == 3
  {
    b[0] as nat * 0x1_0000 + b[1] as nat * 256 + b[2] as nat
  }

  lemma AddressDigits(a: nat)
    requires a < 0x100_0000
    ensures a / 0x1_0000 % 256 * 0x1_0000 + a / 256 % 256 * 256 + a % 256 == a
  {
    assert a / 0x1_0000 == a / 256 / 256;
  }

  lemma AddressRoundTrip(a: nat)
    requires a < 0x100_0000
    ensures AddressOf(AddressBytes(a)) == a
  {
    ByteRoundTrip(a / 0x1_0000 % 256);
    ByteRoundTrip(a / 256 % 256);
    ByteRoundTrip(a % 256);
    AddressDigits(a);
  }

  lemma InPage(j: nat, at: nat, n: nat)
    requires at % PAGE + n <= PAGE
    ensures j / PAGE == at / PAGE && (j - at) % PAGE < n <==> at <= j < at + n
    ensures at <= j < at + n ==> (j - at) % PAGE == j - at
  {
  }

  /** A piece that stays inside its page is programmed where it belongs. */
  lemma PageFits(cells: seq<Byte>, at: nat, data: seq<Byte>)
    requires at % PAGE + |data| <= PAGE
    ensures Programmed(cells, at, data) == Merged(cells, at, data)
  {
    forall j | 0 <= j < |cells|
      ensures Programmed(cells, at, data)[j] == Merged(cells, at, data)[j]
    {
      InPage(j, at, |data|);
    }
  }

  /** A piece that does not is not: the bytes past the page end damage its start instead. */
  lemma PageWraps(cells: seq<Byte>, at: nat, data: seq<Byte>, j: nat)
    requires |data| <= PAGE < at % PAGE + |data| && at + |data| <= |cells|
    requires at - at % PAGE + PAGE <= j < at + |data|
    ensures Programmed(cells, at, data)[j] == cells[j]
    ensures Programmed(cells, at, data)[j - PAGE] == And(cells[j - PAGE], data[j - at])
  {
    assert (j - PAGE - at) % PAGE == j - at;
  }

  lemma MergedInTwo(cells: seq<Byte>, at: nat, x: seq<Byte>, y: seq<Byte>)
    ensures Merged(Merged(cells, at, x), at + |x|, y) == Merged(cells, at, x + y)
  {
  }

  lemma MergedNothing(cells: seq<Byte>, at: nat)
    ensures Merged(cells, at, []) == cells
  {
  }

  lemma ErasedInTwo(cells: seq<Byte>, at: nat, n: nat)
    requires at % SECTOR == 0 && n % SECTOR == 0
    ensures SectorErased(Erased(cells, at, n), at + n) == Erased(cells, at, n + SECTOR)
  {
    forall j | 0 <= j < |cells|
      ensures j / SECTOR == (at + n) / SECTOR <==> at + n <= j < at + n + SECTOR
    {
    }
  }

  lemma AndOnes(b: Byte)
    ensures And(0xFF, b) == b
  {
  }

  lemma AndTwice(a: Byte, b: Byte)
    ensures And(And(a, b), b) == And(a, b)
  {
  }

  /** What is written into an erased range is there to be read, and nothing outside the erased range has changed. */
  lemma EraseThenWrite(cells: seq<Byte>, from: nat, n: nat, at: nat, data: seq<Byte>)
    requires from <= at && at + |data| <= from + n <= |cells|
    ensures var c := Merged(Erased(cells, from, n), at, data);
            && c[at..at + |data|] == data
            && (forall j :: 0 <= j < |cells| && !(from <= j < from + n) ==> c[j] == cells[j])
            && (forall j :: from <= j < from + n && !(at <= j < at + |data|) ==> c[j] == 0xFF)
  {
    hide And;
    forall b: Byte
      ensures And(0xFF, b) == b
    {
      AndOnes(b);
    }
  }

  /** Two writes into separate places do not disturb each other, and the same write again changes nothing. */
  lemma WritesIndependent(cells: seq<Byte>, a: nat, x: seq<Byte>, b: nat, y: seq<Byte>)
    requires a + |x| <= b
    ensures Merged(Merged(cells, a, x), b, y) == Merged(Merged(cells, b, y), a, x)
    ensures Merged(Merged(cells, a, x), a, x) == Merged(cells, a, x)
  {
    hide And;
    forall c: Byte, d: Byte
      ensures And(And(c, d), d) == And(c, d)
    {
      AndTwice(c, d);
    }
  }

  /** Written data is read back exactly where the cells had all its bits. */
  lemma ReadBackIff(cells: seq<Byte>, at: nat, data: seq<Byte>)
    requires at + |data| <= |cells|
    ensures Merged(cells, at, data)[at..at + |data|] == data <==>
            forall k :: 0 <= k < |data| ==> And(cells[at + k], data[k]) == data[k]
  {
    var c := Merged(cells, at, data)[at..at + |data|];
    assert forall k :: 0 <= k < |data| ==> c[k] == And(cells[at + k], data[k]);
  }

  // ---- the driver ----

  lemma ErasedNothing(cells: seq<Byte>, at: nat)
    ensures Erased(cells, at, 0) == cells
  {
  }

  class Driver {
    const cells: array<Byte>

    /** Whether the n-th exchange with the chip fails. */
    const fails: nat -> bool
    var ready: bool
    var calls: nat

    ghost predicate Valid()
      reads this
    {
      cells.Length == DEVICE_SIZE
    }

    ghost predicate FaultFree()
      reads this
    {
      ready && forall n :: !fails(n)
    }

    constructor (contents: seq<Byte>, setUp: bool, faults: nat -> bool)
      requires |contents| == DEVICE_SIZE
      ensures Valid() && fresh(cells) && cells[..] == contents && ready == setUp && fails == faults
    {
      cells := new Byte[DEVICE_SIZE](i requires 0 <= i < DEVICE_SIZE => contents[i]);
      ready, fails, calls := setUp, faults, 0;
      new;
      assert cells[..] == contents;
    }

    method Exchange() returns (ok: bool)
      modifies this`calls
      ensures FaultFree() ==> ok
    {
      ok := !fails(calls);
      calls := calls + 1;
    }

    method ChipProgram(address: seq<Byte>, data: seq<Byte>)
      requires Valid() && |address| == 3 && |data| <= PAGE
      modifies cells
      ensures cells[..] == Programmed(old(cells[..]), AddressOf(address), data)
    {
      var at := AddressOf(address);
      forall j | 0 <= j < cells.Length && j / PAGE == at / PAGE && (j - at) % PAGE < |data| {
        cells[j] := And(cells[j], data[(j - at) % PAGE]);
      }
    }

    method ChipEraseSector(address: seq<Byte>)
      requires Valid() && |address| == 3
      modifies cells
      ensures cells[..] == SectorErased(old(cells[..]), AddressOf(address))
    {
      var at := AddressOf(address);
      forall j | 0 <= j < cells.Length && j / SECTOR == at / SECTOR {
        cells[j] := 0xFF;
      }
    }

    /** The bytes the chip sends from an address on. */
    method ChipRead(address: seq<Byte>, n: nat) returns (data: seq<Byte>)
      requires Valid() && |address| == 3 && AddressOf(address) + n <= DEVICE_SIZE
      ensures data == cells[AddressOf(address)..AddressOf(address) + n]
    {
      data := cells[AddressOf(address)..AddressOf(address) + n];
    }

    /** Page by page: write enable, program, wait. However it ends, the chip holds the data up to some length. */
    method WriteData(at: nat, data: seq<Byte>) returns (code: Code, ghost done: nat)
      requires Valid() && at + |data| <= DEVICE_SIZE
      modifies cells, this`calls
      ensures done <= |data| && cells[..] == Merged(old(cells[..]), at, data[..done])
      ensures code == Ok ==> done == |data| > 0
      ensures code == InvalidArgument <==> |data| == 0
      ensures FaultFree() && |data| > 0 ==> code == Ok
    {
      hide Merged, Programmed, AddressOf, AddressBytes;
      done := 0;
      ghost var was := cells[..];
      MergedNothing(was, at);
      if |data| == 0 {
        return InvalidArgument, 0;
      }
      if !ready {
        return NoDevice, 0;
      }
      var index := 0;
      while index < |data|
        invariant done == index <= |data| && cells[..] == Merged(was, at, data[..index])
      {
        var address := at + index;
        var room := PAGE - address % PAGE;
        var n := Min(room, |data| - index);
        var piece := data[index..index + n];
        var enabled := Exchange();
        if !enabled {
          return IoError, index;
        }
        var sent := Exchange();
        if !sent {
          return IoError, index;
        }
        AddressRoundTrip(address);
        PageFits(cells[..], address, piece);
        MergedInTwo(was, at, data[..index], piece);
        assert data[..index] + piece == data[..index + n];
        ChipProgram(AddressBytes(address), piece);
        index, done := index + n, index + n;
        var finished := Exchange();
        if !finished {
          return IoError, index;
        }
      }
      assert data[..index] == data;
      return Ok, index;
    }

    method EraseSector(at: nat) returns (code: Code, ghost erased: bool)
      requires Valid() && at < DEVICE_SIZE
      modifies cells, this`calls
      ensures cells[..] == if erased then SectorErased(old(cells[..]), at) else old(cells[..])
      ensures code == Ok ==> erased
      ensures code == InvalidArgument <==> at % SECTOR != 0
      ensures FaultFree() && at % SECTOR == 0 ==> code == Ok
    {
      hide SectorErased, AddressOf, AddressBytes;
      erased := false;
      if at % SECTOR != 0 {
        return InvalidArgument, false;
      }
      if !ready {
        return NoDevice, false;
      }
      var enabled := Exchange();
      if !enabled {
        return IoError, false;
      }
      var sent := Exchange();
      if !sent {
        return IoError, false;
      }
      AddressRoundTrip(at);
      ChipEraseSector(AddressBytes(at));
      var finished := Exchange();
      return if finished then Ok else IoError, true;
    }

    method Store(buffer: array<Byte>, at: nat, data: seq<Byte>)
      requires at + |data| <= buffer.Length
      modifies buffer
      ensures buffer[..at + |data|] == old(buffer[..at]) + data
      ensures forall i :: at + |data| <= i <= buffer.Length ==> buffer[i..] == old(buffer[i..])
    {
      forall i | 0 <= i < |data| {
        buffer[at + i] := data[i];
      }
    }

    /** Reads in pieces of `chunk`: 256 bytes on one line, 4096 on four. */
    method ReadChunks(at: nat, buffer: array<Byte>, n: nat, chunk: nat) returns (code: Code)
      requires Valid() && buffer != cells && n <= buffer.Length && at + n <= DEVICE_SIZE && chunk > 0
      modifies buffer, this`calls
      ensures code == Ok ==> buffer[..n] == cells[at..at + n]
      ensures buffer[n..] == old(buffer[n..])
      ensures code == InvalidArgument ==> n == 0
      ensures FaultFree() && n > 0 ==> code == Ok
    {
      hide AddressOf, AddressBytes;
      if !ready {
        return NoDevice;
      }
      if n == 0 {
        return InvalidArgument;
      }
      var total := 0;
      while total < n
        invariant total <= n && buffer[..total] == cells[at..at + total] && buffer[n..] == old(buffer[n..])
      {
        var k := Min(n - total, chunk);
        var received := Exchange();
        if !received {
          return IoError;
        }
        AddressRoundTrip(at + total);
        var data := ChipRead(AddressBytes(at + total), k);
        Store(buffer, total, data);
        assert cells[at..at + total] + data == cells[at..at + total + k];
        total := total + k;
      }
      return Ok;
    }

    method ReadNormal(at: nat, buffer: array<Byte>, n: nat) returns (code: Code)
      requires Valid() && buffer != cells && n <= buffer.Length && at + n <= DEVICE_SIZE
      modifies buffer, this`calls
      ensures code == Ok ==> buffer[..n] == cells[at..at + n]
      ensures FaultFree() && n > 0 ==> code == Ok
    {
      code := ReadChunks(at, buffer, n, READ_CHUNK);
    }

    method ReadQuad(at: nat, buffer: array<Byte>, n: nat) returns (code: Code)
      requires Valid() && buffer != cells && n <= buffer.Length && at + n <= DEVICE_SIZE
      modifies buffer, this`calls
      ensures code == Ok ==> buffer[..n] == cells[at..at + n]
      ensures code == InvalidArgument ==> n == 0
      ensures FaultFree() && n > 0 ==> code == Ok
    {
      code := ReadChunks(at, buffer, n, QUAD_CHUNK);
    }

    // ---- the flash device above it ----

    /** Any offset and length the caller comes up with: accepted exactly if all the range is on the device. */
    predicate InRange(offset: int, n: nat): (ok: bool)
      ensures ok <==> 0 <= offset && offset + n <= DEVICE_SIZE
    {
      0 <= offset <= DEVICE_SIZE && n <= DEVICE_SIZE - offset
    }

    method Read(offset: int, buffer: array<Byte>, n: nat) returns (code: Code)
      requires Valid() && buffer != cells && n <= buffer.Length
      modifies buffer, this`calls
      ensures code == Ok ==> InRange(offset, n) && buffer[..n] == cells[offset..offset + n]
      ensures code == InvalidArgument <==> !InRange(offset, n)
      ensures FaultFree() && InRange(offset, n) ==> code == Ok
    {
      if !InRange(offset, n) {
        return InvalidArgument;
      }
      if n == 0 {
        assert cells[offset..offset + n] == [];
        return Ok;
      }
      code := ReadQuad(offset, buffer, n);
    }

    method Write(offset: int, data: seq<Byte>) returns (code: Code, ghost done: nat)
      requires Valid()
      modifies cells, this`calls
      ensures code == InvalidArgument <==> !InRange(offset, |data|)
      ensures code == InvalidArgument ==> cells[..] == old(cells[..])
      ensures code != InvalidArgument ==> done <= |data| && cells[..] == Merged(old(cells[..]), offset, data[..done])
      ensures code == Ok ==> done == |data|
      ensures FaultFree() && InRange(offset, |data|) ==> code == Ok
    {
      if !InRange(offset, |data|) {
        return InvalidArgument, 0;
      }
      if |data| == 0 {
        MergedNothing(cells[..], offset);
        return Ok, 0;
      }
      code, done := WriteData(offset, data);
    }

    method Erase(offset: int, n: nat) returns (code: Code, ghost done: nat)
      requires Valid()
      modifies cells, this`calls
      ensures code == InvalidArgument <==> !InRange(offset, n) || (n > 0 && (offset % SECTOR != 0 || n % SECTOR != 0))
      ensures code == InvalidArgument ==> cells[..] == old(cells[..])
      ensures code != InvalidArgument ==>
                done <= n && done % SECTOR == 0 && cells[..] == Erased(old(cells[..]), offset, done)
      ensures code == Ok ==> done == n
      ensures FaultFree() && InRange(offset, n) && offset % SECTOR == 0 && n % SECTOR == 0 ==> code == Ok
    {
      hide Erased, SectorErased;
      done := 0;
      if !InRange(offset, n) {
        return InvalidArgument, 0;
      }
      if n == 0 {
        ErasedNothing(cells[..], offset);
        return Ok, 0;
      }
      if offset % SECTOR != 0 || n % SECTOR != 0 {
        return InvalidArgument, 0;
      }
      ghost var was := cells[..];
      ErasedNothing(was, offset);
      var address, remaining := offset, n;
      while remaining > 0
        invariant 0 <= remaining <= n && address == offset + done && done == n - remaining && done % SECTOR == 0
        invariant cells[..] == Erased(was, offset, done)
        decreases remaining
      {
        ErasedInTwo(was, offset, done);
        ghost var erased;
        code, erased := EraseSector(address);
        if erased {
          done := done + SECTOR;
        }
        if code != Ok {
          return code, done;
        }
        remaining, address := remaining - SECTOR, address + SECTOR;
      }
      return Ok, done;
    }

    /** Erases, writes into what was erased and reads back, on four lines or on one. */
    method Rewrite(from: int, n: nat, at: int, data: seq<Byte>, buffer: array<Byte>, oneLine: bool) returns (code: Code)
      requires Valid() && buffer != cells && |data| <= buffer.Length && from <= at && at + |data| <= from + n
      modifies cells, buffer, this`calls
      ensures code == Ok ==>
                && 0 <= from && from + n <= DEVICE_SIZE
                && buffer[..|data|] == data == cells[at..at + |data|]
                && (forall j :: from <= j < from + n && !(at <= j < at + |data|) ==> cells[j] == 0xFF)
      ensures forall j :: 0 <= j < DEVICE_SIZE && !(from <= j < from + n) ==> cells[j] == old(cells[j])
      ensures FaultFree() && InRange(from, n) && from % SECTOR == 0 && n % SECTOR == 0 && data != [] ==> code == Ok
    {
      hide And;
      ghost var was := cells[..];
      ghost var done;
      code, done := Erase(from, n);
      assert forall j :: 0 <= j < DEVICE_SIZE && !(from <= j < from + n) ==> cells[..][j] == was[j];
      if code != Ok {
        return;
      }
      code, done := Write(at, data);
      assert forall j :: 0 <= j < DEVICE_SIZE && !(from <= j < from + n) ==> cells[..][j] == was[j];
      if code != Ok {
        return;
      }
      assert data[..done] == data;
      EraseThenWrite(was, from, n, at, data);
      if oneLine {
        code := ReadNormal(at, buffer, |data|);
      } else {
        code := Read(at, buffer, |data|);
      }
      assert forall j :: 0 <= j < DEVICE_SIZE ==> cells[j] == Merged(Erased(was, from, n), at, data)[j];
    }
  }
}
