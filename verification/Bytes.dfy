/** Bytes as the firmware and the PC tools see them, and the big-endian fields both sides exchange. */
module Bytes {
  type Byte = bv8

  datatype Option<+T> = None | Some(value: T)

  function Min(a: int, b: int): (m: int)
    ensures m <= a && m <= b && (m == a || m == b)
  {
    if a < b then a else b
  }

  function Value(b: Byte): (n: nat)
    ensures n < 256
  {
    b as nat
  }

  function ByteOf(n: nat): Byte
    requires n < 256
  {
    n as Byte
  }

  /** `n` in two bytes, most significant first. Values wider than 16 bits keep their low 16 bits. */
  function PutU16(n: nat): (b: seq<Byte>)
    ensures |b| == 2
  {
    [(n / 256 % 256) as Byte, (n % 256) as Byte]
  }

  function GetU16(b: seq<Byte>): (n: nat)
    requires |b| == 2
    ensures n < 0x1_0000
  {
    b[0] as nat * 256 + b[1] as nat
  }

  function PutU32(n: nat): (b: seq<Byte>)
    ensures |b| == 4
  {
    PutU16(n / 0x1_0000) + PutU16(n % 0x1_0000)
  }

  function GetU32(b: seq<Byte>): (n: nat)
    requires |b| == 4
    ensures n < 0x1_0000_0000
  {
    GetU16(b[..2]) * 0x1_0000 + GetU16(b[2..])
  }

  /** A byte survives the trip through an integer in both directions. */
  lemma ByteRoundTrip(n: nat)
    requires n < 256
    ensures n as Byte as nat == n
  {
    if n < 32 {
    } else if n < 64 {
    } else if n < 96 {
    } else if n < 128 {
    } else if n < 160 {
    } else if n < 192 {
    } else if n < 224 {
    } else {
    }
  }

  lemma ByteRoundTripBack(b: Byte)
    ensures b as nat as Byte == b
  {
  }

  lemma U16RoundTrip(n: nat)
    requires n < 0x1_0000
    ensures GetU16(PutU16(n)) == n
  {
    ByteRoundTrip(n / 256);
    ByteRoundTrip(n % 256);
  }

  lemma U32RoundTrip(n: nat)
    requires n < 0x1_0000_0000
    ensures GetU32(PutU32(n)) == n
  {
    U16RoundTrip(n / 0x1_0000);
    U16RoundTrip(n % 0x1_0000);
    assert PutU32(n)[..2] == PutU16(n / 0x1_0000);
    assert PutU32(n)[2..] == PutU16(n % 0x1_0000);
  }

  lemma TwoDigits(high: nat, low: nat)
    requires high < 256 && low < 256
    ensures (high * 256 + low) / 256 % 256 == high && (high * 256 + low) % 256 == low
  {
  }

  lemma ByteBack(b: Byte, n: nat)
    requires n == Value(b)
    ensures n as Byte == b
  {
    ByteRoundTripBack(b);
  }

  lemma PutDigits(n: nat, high: Byte, low: Byte)
    requires n / 256 % 256 == Value(high) && n % 256 == Value(low)
    ensures PutU16(n) == [high, low]
  {
    ByteBack(high, n / 256 % 256);
    ByteBack(low, n % 256);
  }

  lemma GetDigits(b: seq<Byte>)
    requires |b| == 2
    ensures GetU16(b) == Value(b[0]) * 256 + Value(b[1])
  {
  }

  lemma U16RoundTripBack(b: seq<Byte>)
    requires |b| == 2
    ensures PutU16(GetU16(b)) == b
  {
    hide PutU16, GetU16, Value;
    GetDigits(b);
    TwoDigits(Value(b[0]), Value(b[1]));
    PutDigits(GetU16(b), b[0], b[1]);
  }

  lemma U32RoundTripBack(b: seq<Byte>)
    requires |b| == 4
    ensures PutU32(GetU32(b)) == b
  {
    hide PutU16, GetU16;
    U16RoundTripBack(b[..2]);
    U16RoundTripBack(b[2..]);
    assert b[..2] + b[2..] == b;
  }
}
