/** The 48-byte record that holds one audio source: the firmware's codec, the PC tool's codec, and how they relate.
    The CRC-32 of IEEE 802.3 is a parameter, any function of the bytes it covers. */
module AudioRecord {
  import opened Bytes

  const SOURCES: nat := 4
  const RECORD: nat := 48
  const CRC_OFFSET: nat := 16
  const NAME_SIZE: nat := 24
  const MAX_VOLUME: nat := 100
  const TYPE_NONE: nat := 0
  const SOURCE_TYPES: nat := 3
  const MAGIC: seq<Byte> := [0x53, 0x52, 0x43, 0x46]

  type Crc32 = n: nat | n < 0x1_0000_0000

  type Checksum = seq<Byte> -> Crc32

  /** `name` is the text before the first NUL of its 24-byte field. */
  datatype Source =
    Source(id: nat, kind: nat, active: bool, muted: bool, selected: bool, volume: nat, name: seq<Byte>)

  /** What a record can hold and the firmware accepts. */
  ghost predicate WellFormed(c: Source) {
    && c.id < SOURCES && TYPE_NONE < c.kind < SOURCE_TYPES && c.volume <= MAX_VOLUME
    && 0 < |c.name| < NAME_SIZE && 0 !in c.name && (c.selected ==> c.active)
  }

  // ---- little-endian fields ----

  function PutLe16(n: nat): (b: seq<Byte>)
    ensures |b| == 2
  {
    [ByteOf(n % 256), ByteOf(n / 256 % 256)]
  }

  function PutLe32(n: nat): (b: seq<Byte>)
    ensures |b| == 4
  {
    PutLe16(n % 0x1_0000) + PutLe16(n / 0x1_0000)
  }

  function GetLe16(b: seq<Byte>): (n: nat)
    requires |b| == 2
    ensures n < 0x1_0000
  {
    Value(b[0]) + Value(b[1]) * 256
  }

  function GetLe32(b: seq<Byte>): (n: nat)
    requires |b| == 4
    ensures n < 0x1_0000_0000
  {
    GetLe16(b[..2]) + GetLe16(b[2..]) * 0x1_0000
  }

  lemma Le16RoundTrip(n: nat)
    requires n < 0x1_0000
    ensures GetLe16(PutLe16(n)) == n
  {
    ByteRoundTrip(n % 256);
    ByteRoundTrip(n / 256);
  }

  lemma ByteOfValue(b: Byte)
    ensures ByteOf(Value(b)) == b
  {
    ByteRoundTripBack(b);
  }

  lemma Digits(lo: nat, hi: nat)
    requires lo < 256 && hi < 256
    ensures (lo + hi * 256) % 256 == lo && (lo + hi * 256) / 256 % 256 == hi
  {
  }

  lemma Le16RoundTripBack(b: seq<Byte>)
    requires |b| == 2
    ensures PutLe16(GetLe16(b)) == b
  {
    hide Value, ByteOf;
    ByteOfValue(b[0]);
    ByteOfValue(b[1]);
    Digits(Value(b[0]), Value(b[1]));
  }

  lemma Le32RoundTrip(n: nat)
    requires n < 0x1_0000_0000
    ensures GetLe32(PutLe32(n)) == n
  {
    hide PutLe16, GetLe16;
    Le16RoundTrip(n % 0x1_0000);
    Le16RoundTrip(n / 0x1_0000);
    assert PutLe32(n)[..2] == PutLe16(n % 0x1_0000) && PutLe32(n)[2..] == PutLe16(n / 0x1_0000);
  }

  lemma Le32RoundTripBack(b: seq<Byte>)
    requires |b| == 4
    ensures PutLe32(GetLe32(b)) == b
  {
    hide PutLe16, GetLe16;
    Le16RoundTripBack(b[..2]);
    Le16RoundTripBack(b[2..]);
    assert b[..2] + b[2..] == b;
  }

  // ---- flags ----

  function Flags(c: Source): Byte {
    (if c.active then 1 else 0 as Byte) | (if c.muted then 2 else 0 as Byte) | (if c.selected then 4 else 0 as Byte)
  }

  predicate KnownFlags(f: Byte) { f & 0xF8 == 0 }

  lemma FlagsRead(c: Source)
    ensures var f := Flags(c);
            KnownFlags(f) && (f & 1 != 0) == c.active && (f & 2 != 0) == c.muted && (f & 4 != 0) == c.selected
  {
  }

  lemma FlagsWritten(f: Byte, c: Source)
    requires KnownFlags(f) && c.active == (f & 1 != 0) && c.muted == (f & 2 != 0) && c.selected == (f & 4 != 0)
    ensures Flags(c) == f
  {
  }

  // ---- the firmware ----

  function Zeros(n: nat): (z: seq<Byte>)
    ensures |z| == n && forall i :: 0 <= i < n ==> z[i] == 0
  {
    seq(n, i => 0)
  }

  const HEADER: seq<Byte> := MAGIC + [2, 0, 24, 0, 48, 0, 0, 0]

  /** Type, id, flags, volume and the length of the name. */
  function Settings(c: Source): (h: seq<Byte>)
    requires |c.name| < NAME_SIZE
    ensures |h| == 5
  {
    [(c.kind % 256) as Byte, (c.id % 256) as Byte, Flags(c), (c.volume % 256) as Byte, |c.name| as Byte]
  }

  /** The bytes the checksum covers. */
  function Payload(c: Source): (p: seq<Byte>)
    requires |c.name| < NAME_SIZE
    ensures |p| == RECORD - CRC_OFFSET
  {
    Settings(c) + [0, 0, 0] + c.name + Zeros(NAME_SIZE - |c.name|)
  }

  function Seal(k: Checksum, payload: seq<Byte>): seq<Byte> { HEADER + PutLe32(k(payload)) + payload }

  /** The record of a source, or none if its name or volume does not fit. */
  function Encode(k: Checksum, c: Source): (r: Option<seq<Byte>>)
    ensures r.Some? ==> |r.value| == RECORD
  {
    if |c.name| == 0 || |c.name| >= NAME_SIZE || c.volume > MAX_VOLUME then None else Some(Seal(k, Payload(c)))
  }

  predicate HeaderOk(r: seq<Byte>)
    requires |r| == RECORD
  {
    r[..4] == MAGIC && GetLe16(r[4..6]) == 2 && GetLe16(r[6..8]) == 24 && GetLe32(r[8..12]) == RECORD
  }

  predicate NameOk(p: seq<Byte>)
    requires |p| == RECORD - CRC_OFFSET
  {
    var n := p[4] as nat;
    && 0 < n < NAME_SIZE
    && (forall i :: 8 <= i < 8 + n ==> p[i] != 0)
    && (forall i :: 8 + n <= i < 8 + NAME_SIZE ==> p[i] == 0)
  }

  predicate FieldsOk(p: seq<Byte>, id: nat)
    requires |p| == RECORD - CRC_OFFSET
  {
    && p[1] as nat < SOURCES && p[1] as nat == id
    && p[0] as nat < SOURCE_TYPES && p[0] as nat != TYPE_NONE
    && p[3] as nat <= MAX_VOLUME
    && KnownFlags(p[2])
    && p[5] == 0 && p[6] == 0 && p[7] == 0
    && NameOk(p)
    && (p[2] & 4 != 0 ==> p[2] & 1 != 0)
  }

  function Fields(p: seq<Byte>): Source
    requires |p| == RECORD - CRC_OFFSET && p[4] as nat < NAME_SIZE
  {
    Source(p[1] as nat, p[0] as nat, p[2] & 1 != 0, p[2] & 2 != 0, p[2] & 4 != 0, p[3] as nat, p[8..8 + p[4] as nat])
  }

  /** The source a record holds for slot `id`; a record of another length cannot be read. */
  function Decode(k: Checksum, r: seq<Byte>, id: nat): Option<Source> {
    if |r| != RECORD then None
    else
      var p := r[CRC_OFFSET..];
      if HeaderOk(r) && k(p) == GetLe32(r[12..16]) && FieldsOk(p, id) then Some(Fields(p)) else None
  }

  // ---- the codec is a bijection ----

  lemma RecordSizeField()
    ensures GetLe32([48, 0, 0, 0]) == RECORD
  {
    assert [48, 0, 0, 0 as Byte][..2] == [48, 0] && [48, 0, 0, 0 as Byte][2..] == [0, 0];
  }

  lemma Fixed16(n: nat, b: seq<Byte>)
    requires n < 256 && b == [n as Byte, 0]
    ensures PutLe16(n) == b && GetLe16(b) == n
  {
    ByteRoundTrip(n);
  }

  lemma HeaderParts()
    ensures HEADER[..4] == MAGIC && HEADER[4..6] == PutLe16(2) && HEADER[6..8] == PutLe16(24) &&
              HEADER[8..12] == PutLe32(RECORD)
    ensures HEADER == MAGIC + PutLe16(2) + PutLe16(24) + PutLe32(RECORD)
    ensures GetLe16(HEADER[4..6]) == 2 && GetLe16(HEADER[6..8]) == 24 && GetLe32(HEADER[8..12]) == RECORD
  {
    hide GetLe32, PutLe32;
    Fixed16(2, [2, 0]);
    Fixed16(24, [24, 0]);
    RecordSizeField();
    Le32RoundTripBack([48, 0, 0, 0]);
    assert HEADER[8..12] == [48, 0, 0, 0];
  }

  lemma HeaderExact(r: seq<Byte>)
    requires |r| == RECORD
    ensures HeaderOk(r) <==> r[..12] == HEADER
  {
    hide GetLe32, PutLe32, GetLe16, PutLe16;
    HeaderParts();
    if HeaderOk(r) {
      Le16RoundTripBack(r[4..6]);
      Le16RoundTripBack(r[6..8]);
      Le32RoundTripBack(r[8..12]);
      assert r[..12] == r[..4] + r[4..6] + r[6..8] + r[8..12];
    }
    if r[..12] == HEADER {
      assert r[..4] == HEADER[..4] && r[4..6] == HEADER[4..6] && r[6..8] == HEADER[6..8] && r[8..12] == HEADER[8..12];
    }
  }

  lemma SealParts(k: Checksum, p: seq<Byte>)
    requires |p| == RECORD - CRC_OFFSET
    ensures var r := Seal(k, p);
            |r| == RECORD && HeaderOk(r) && GetLe32(r[12..16]) == k(p) && r[CRC_OFFSET..] == p
  {
    hide HeaderOk, GetLe32, PutLe32;
    var r := Seal(k, p);
    HeaderExact(r);
    assert r[..12] == HEADER;
    assert r[12..16] == PutLe32(k(p));
    Le32RoundTrip(k(p));
  }

  /** A record with a good header and checksum is the seal of its payload. */
  lemma SealExact(k: Checksum, r: seq<Byte>)
    requires |r| == RECORD && HeaderOk(r) && GetLe32(r[12..16]) == k(r[CRC_OFFSET..])
    ensures r == Seal(k, r[CRC_OFFSET..])
  {
    hide HeaderOk, GetLe32, PutLe32;
    HeaderExact(r);
    Le32RoundTripBack(r[12..16]);
    assert r == r[..12] + r[12..16] + r[16..];
  }

  lemma PayloadReadsBack(c: Source)
    requires c.id < 256 && c.kind < 256 && c.volume <= MAX_VOLUME && 0 < |c.name| < NAME_SIZE && 0 !in c.name
    ensures Payload(c)[4] as nat == |c.name| && NameOk(Payload(c)) && KnownFlags(Payload(c)[2]) &&
              Fields(Payload(c)) == c
  {
    hide KnownFlags, Flags;
    FlagsRead(c);
    ByteRoundTrip(c.kind);
    ByteRoundTrip(c.id);
    ByteRoundTrip(c.volume);
    ByteRoundTrip(|c.name|);
    var p := Payload(c);
    assert p[8..8 + |c.name|] == c.name;
  }

  lemma PayloadGap(c: Source)
    requires |c.name| < NAME_SIZE
    ensures Payload(c)[5] == 0 && Payload(c)[6] == 0 && Payload(c)[7] == 0
  {
  }

  lemma FieldsMeaning(p: seq<Byte>)
    requires |p| == RECORD - CRC_OFFSET && p[4] as nat < NAME_SIZE
    ensures var c := Fields(p);
            c.id == p[1] as nat && c.kind == p[0] as nat && c.volume == p[3] as nat &&
            c.active == (p[2] & 1 != 0) && c.muted == (p[2] & 2 != 0) && c.selected == (p[2] & 4 != 0)
  {
  }

  /** Any source the firmware can hold goes to its record and back if it is well formed, and not otherwise. */
  lemma EncodeThenDecode(k: Checksum, c: Source)
    requires c.id < 256 && c.kind < 256 && 0 !in c.name
    ensures WellFormed(c) <==> Encode(k, c).Some? && Decode(k, Encode(k, c).value, c.id) == Some(c)
  {
    hide HeaderOk, GetLe32, Seal, KnownFlags, NameOk, Payload, Fields;
    if Encode(k, c).Some? {
      var p := Payload(c);
      SealParts(k, p);
      PayloadReadsBack(c);
      FieldsMeaning(p);
      assert p[5] == 0 && p[6] == 0 && p[7] == 0 by {
        PayloadGap(c);
      }
    }
  }

  lemma ByteKept(b: Byte)
    ensures (b as nat % 256) as Byte == b && b as nat as Byte == b
  {
  }

  lemma SettingsWrittenBack(p: seq<Byte>)
    requires |p| == RECORD - CRC_OFFSET && p[4] as nat < NAME_SIZE && Flags(Fields(p)) == p[2]
    ensures Settings(Fields(p)) == [p[0], p[1], p[2], p[3], p[4]]
  {
    hide Flags;
    ByteKept(p[0]);
    ByteKept(p[1]);
    ByteKept(p[3]);
    ByteKept(p[4]);
    assert |Fields(p).name| == p[4] as nat;
  }

  lemma NameParts(p: seq<Byte>, n: nat)
    requires |p| == RECORD - CRC_OFFSET && n < NAME_SIZE && p[5] == 0 && p[6] == 0 && p[7] == 0
    ensures p == [p[0], p[1], p[2], p[3], p[4], 0, 0, 0] + p[8..8 + n] + p[8 + n..]
  {
  }

  lemma PayloadWrittenBack(p: seq<Byte>)
    requires |p| == RECORD - CRC_OFFSET && NameOk(p) && p[5] == 0 && p[6] == 0 && p[7] == 0 && Flags(Fields(p)) == p[2]
    ensures Payload(Fields(p)) == p
  {
    hide Settings;
    var c, n := Fields(p), p[4] as nat;
    assert |c.name| == n;
    SettingsWrittenBack(p);
    assert p[8 + n..] == Zeros(NAME_SIZE - n);
    NameParts(p, n);
    assert [p[0], p[1], p[2], p[3], p[4]] + [0, 0, 0] == [p[0], p[1], p[2], p[3], p[4], 0, 0, 0];
  }

  lemma FieldsWrittenBack(p: seq<Byte>, id: nat)
    requires |p| == RECORD - CRC_OFFSET && FieldsOk(p, id)
    ensures WellFormed(Fields(p)) && Fields(p).id == id && Payload(Fields(p)) == p
  {
    hide KnownFlags, Flags, Payload;
    var c, n := Fields(p), p[4] as nat;
    assert forall i :: 0 <= i < n ==> c.name[i] == p[8 + i];
    FlagsWritten(p[2], c);
    PayloadWrittenBack(p);
  }

  lemma NameFits(p: seq<Byte>, id: nat)
    requires |p| == RECORD - CRC_OFFSET && FieldsOk(p, id)
    ensures p[4] as nat < NAME_SIZE
  {
  }

  /** Every record the firmware accepts is the one it would write for what it read. */
  lemma DecodeThenEncode(k: Checksum, r: seq<Byte>, id: nat)
    requires Decode(k, r, id).Some?
    ensures var c := Decode(k, r, id).value;
            WellFormed(c) && c.id == id && Encode(k, c) == Some(r)
  {
    hide HeaderOk, GetLe32, Seal, Payload, FieldsOk;
    var p := r[CRC_OFFSET..];
    assert p[4] as nat < NAME_SIZE by {
      NameFits(p, id);
    }
    SealExact(k, r);
    FieldsWrittenBack(p, id);
  }

  // ---- the PC tool ----

  /** Whether bytes are UTF-8 text that neither begins nor ends with white space. */
  type TextTest = seq<Byte> -> bool

  predicate ToolAccepts(text: TextTest, c: Source) {
    && c.kind < SOURCE_TYPES && c.id < SOURCES
    && 0 < |c.name| && text(c.name) && 0 !in c.name && |c.name| <= 23
    && c.volume <= 100
    && (c.active ==> c.kind != TYPE_NONE) && (c.selected ==> c.active)
  }

  function ToolPayload(c: Source): seq<Byte>
    requires c.kind < SOURCE_TYPES && c.id < SOURCES && c.volume <= 100 && |c.name| <= 23
  {
    [c.kind as Byte, c.id as Byte, Flags(c), c.volume as Byte, |c.name| as Byte, 0, 0, 0]
    + c.name + Zeros(24 - |c.name|)
  }

  function ToolEncode(k: Checksum, text: TextTest, c: Source): Option<seq<Byte>> {
    if !ToolAccepts(text, c) then None
    else Some(MAGIC + PutLe16(2) + PutLe16(24) + PutLe32(48) + PutLe32(k(ToolPayload(c))) + ToolPayload(c))
  }

  function ToolDecode(k: Checksum, text: TextTest, r: seq<Byte>): Option<Source> {
    if |r| != 48 then None
    else
      var p := r[16..];
      if r[..4] != MAGIC || GetLe16(r[4..6]) != 2 || GetLe16(r[6..8]) != 24 || GetLe32(r[8..12]) != 48 then None
      else if !KnownFlags(p[2]) || p[5..8] != [0, 0, 0] || p[4] as nat > 23 || k(p) != GetLe32(r[12..16]) then None
      else if exists i :: 8 + p[4] as nat <= i < 32 && p[i] != 0 then None
      else if ToolAccepts(text, Fields(p)) then Some(Fields(p)) else None
  }

  lemma ToolSettings(c: Source)
    requires c.kind < 256 && c.id < 256 && c.volume < 256 && |c.name| < NAME_SIZE
    ensures Settings(c) + [0, 0, 0] ==
              [c.kind as Byte, c.id as Byte, Flags(c), c.volume as Byte, |c.name| as Byte, 0, 0, 0]
  {
    hide Flags;
  }

  lemma ToolPayloadSame(c: Source)
    requires c.kind < SOURCE_TYPES && c.id < SOURCES && c.volume <= 100 && |c.name| <= 23
    ensures ToolPayload(c) == Payload(c)
  {
    hide Settings;
    ToolSettings(c);
  }

  lemma ToolWritesTheSame(k: Checksum, text: TextTest, c: Source)
    requires ToolAccepts(text, c)
    ensures ToolEncode(k, text, c) == Encode(k, c)
  {
    hide GetLe32, PutLe32, GetLe16, PutLe16, Payload, ToolPayload;
    HeaderParts();
    ToolPayloadSame(c);
  }

  lemma ToolEncodes(k: Checksum, text: TextTest, c: Source)
    ensures ToolEncode(k, text, c).Some? <==> ToolAccepts(text, c)
  {
  }

  lemma NoneRefused(k: Checksum, c: Source)
    requires c.kind == TYPE_NONE && Encode(k, c).Some?
    ensures Decode(k, Encode(k, c).value, c.id) == None
  {
    hide HeaderOk, GetLe32, Seal, KnownFlags, NameOk;
    SealParts(k, Payload(c));
    ByteRoundTrip(0);
  }

  /** What the tool writes the firmware reads with the same fields, unless the source type is None, which it refuses. */
  lemma ToolToFirmware(k: Checksum, text: TextTest, c: Source)
    requires ToolEncode(k, text, c).Some?
    ensures Decode(k, ToolEncode(k, text, c).value, c.id) == if c.kind == TYPE_NONE then None else Some(c)
  {
    hide Encode, ToolEncode, Fields;
    assert ToolAccepts(text, c) by {
      ToolEncodes(k, text, c);
    }
    ToolWritesTheSame(k, text, c);
    EncodeThenDecode(k, c);
    var r := ToolEncode(k, text, c).value;
    if c.kind == TYPE_NONE && Decode(k, r, c.id).Some? {
      NoneRefused(k, c);
    }
  }

  lemma NamesAgree(p: seq<Byte>)
    requires |p| == RECORD - CRC_OFFSET && p[4] as nat <= 23
    ensures NameOk(p) <==>
              0 < |Fields(p).name| && 0 !in Fields(p).name &&
              !(exists i :: 8 + p[4] as nat <= i < 32 && p[i] != 0)
    ensures |Fields(p).name| <= 23
  {
    var n := p[4] as nat;
    assert forall i :: 8 <= i < 8 + n ==> p[i] == Fields(p).name[i - 8];
    assert forall i :: 0 <= i < n ==> Fields(p).name[i] == p[i + 8];
  }

  lemma LongNameRefused(p: seq<Byte>)
    requires |p| == RECORD - CRC_OFFSET && p[4] as nat > 23
    ensures !NameOk(p)
  {
  }

  /** Both readers take the same records in the same way, but the tool also wants its text test and takes inactive
      sources of type None. */
  lemma ReadersAgree(k: Checksum, text: TextTest, r: seq<Byte>, c: Source)
    ensures ToolDecode(k, text, r) == Some(c) && c.kind != TYPE_NONE <==> Decode(k, r, c.id) == Some(c) && text(c.name)
  {
    hide GetLe32, GetLe16, KnownFlags, Fields, NameOk;
    if |r| == 48 {
      var p := r[16..];
      assert p[5..8] == [p[5], p[6], p[7]];
      if p[4] as nat <= 23 {
        NamesAgree(p);
        FieldsMeaning(p);
      } else {
        LongNameRefused(p);
      }
    }
  }

  /** The tool reads back what it wrote. */
  lemma ToolRoundTrip(k: Checksum, text: TextTest, c: Source)
    requires ToolAccepts(text, c)
    ensures ToolDecode(k, text, ToolEncode(k, text, c).value) == Some(c)
  {
    hide GetLe32, GetLe16, KnownFlags, Seal, Fields, Payload;
    ToolWritesTheSame(k, text, c);
    var p := Payload(c);
    SealParts(k, p);
    PayloadReadsBack(c);
    PayloadGap(c);
    assert p[5..8] == [p[5], p[6], p[7]];
  }

  // ---- the buffers in place ----

  method Fill(rec: array<Byte>, at: nat, data: seq<Byte>)
    requires at + |data| <= rec.Length
    modifies rec
    ensures forall i :: 0 <= i < rec.Length ==> rec[i] == if at <= i < at + |data| then data[i - at] else old(rec[i])
  {
    forall i | 0 <= i < |data| {
      rec[at + i] := data[i];
    }
  }

  method FillPayload(c: Source, rec: array<Byte>)
    requires rec.Length == RECORD && |c.name| < NAME_SIZE
    modifies rec
    ensures rec[CRC_OFFSET..] == Payload(c)
  {
    hide Settings;
    forall i | 0 <= i < RECORD {
      rec[i] := 0;
    }
    Fill(rec, CRC_OFFSET, Settings(c));
    Fill(rec, NAME_SIZE, c.name);
    assert rec[CRC_OFFSET..] == Payload(c);
  }

  /** The record of `c` in `rec`, built field by field over a cleared buffer. */
  method EncodeRecord(k: Checksum, c: Source, rec: array<Byte>) returns (ok: bool)
    requires rec.Length == RECORD
    modifies rec
    ensures ok <==> Encode(k, c).Some?
    ensures rec[..] == if ok then Encode(k, c).value else old(rec[..])
  {
    hide Payload, PutLe32;
    if |c.name| == 0 || |c.name| >= NAME_SIZE || c.volume > MAX_VOLUME {
      return false;
    }
    FillPayload(c, rec);
    Fill(rec, 0, HEADER);
    assert rec[CRC_OFFSET..] == Payload(c);
    Fill(rec, 12, PutLe32(k(rec[CRC_OFFSET..])));
    assert rec[CRC_OFFSET..] == Payload(c) && rec[12..16] == PutLe32(k(Payload(c))) && rec[..12] == HEADER;
    assert rec[..] == rec[..12] + rec[12..16] + rec[16..];
    return true;
  }

  /** The name is 1 to 23 bytes without NUL, and zero up to the end of its field. */
  method ValidateName(rec: array<Byte>) returns (ok: bool)
    requires rec.Length == RECORD
    ensures ok == NameOk(rec[CRC_OFFSET..])
  {
    ghost var p := rec[CRC_OFFSET..];
    var n := rec[20] as nat;
    assert p[4] == rec[20];
    if n == 0 || n >= NAME_SIZE {
      return false;
    }
    for i := 0 to n
      invariant forall j :: 8 <= j < 8 + i ==> p[j] != 0
    {
      if rec[NAME_SIZE + i] == 0 {
        assert p[8 + i] == 0;
        return false;
      }
    }
    for i := n to NAME_SIZE
      invariant forall j :: 8 + n <= j < 8 + i ==> p[j] == 0
    {
      if rec[NAME_SIZE + i] != 0 {
        assert p[8 + i] != 0;
        return false;
      }
    }
    return true;
  }

  method CheckFields(rec: array<Byte>, id: nat) returns (ok: bool)
    requires rec.Length == RECORD
    ensures ok == FieldsOk(rec[CRC_OFFSET..], id)
  {
    hide NameOk, KnownFlags;
    ghost var p := rec[CRC_OFFSET..];
    if rec[17] as nat >= SOURCES || rec[17] as nat != id ||
       rec[16] as nat >= SOURCE_TYPES || rec[16] as nat == TYPE_NONE ||
       rec[19] as nat > MAX_VOLUME || !KnownFlags(rec[18]) || rec[21] != 0 || rec[22] != 0 || rec[23] != 0 {
      assert p[0] == rec[16] && p[1] == rec[17] && p[2] == rec[18] && p[3] == rec[19];
      assert p[5] == rec[21] && p[6] == rec[22] && p[7] == rec[23];
      return false;
    }
    ok := ValidateName(rec);
    var active, selected := rec[18] & 1 != 0, rec[18] & 4 != 0;
    assert p[2] == rec[18];
    return ok && (active || !selected);
  }

  method DecodeRecord(k: Checksum, rec: array<Byte>, id: nat) returns (c: Option<Source>)
    requires rec.Length == RECORD
    ensures c == Decode(k, rec[..], id)
  {
    hide HeaderOk, GetLe32, FieldsOk;
    assert rec[..][CRC_OFFSET..] == rec[CRC_OFFSET..] && rec[..][12..16] == rec[12..16];
    if !HeaderOk(rec[..]) || k(rec[CRC_OFFSET..]) != GetLe32(rec[12..16]) {
      return None;
    }
    var ok := CheckFields(rec, id);
    if !ok {
      return None;
    }
    NameFits(rec[CRC_OFFSET..], id);
    return Some(Fields(rec[CRC_OFFSET..]));
  }
}
