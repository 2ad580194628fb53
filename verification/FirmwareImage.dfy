/** The image as the host cuts it into an update request and numbered packets. */
module FirmwareImage {
  import opened Bytes
  import opened Register16
  import opened FirmwareSession
  import Crc16

  const MAX_IMAGE: nat := 0xFF_FFFF

  /** Bytes [48 id, 48 id + 48) of the image, the last packet padded with 0xFF. */
  function PacketData(image: seq<Byte>, id: nat): (d: seq<Byte>)
    requires id < PacketTotal(|image|)
    ensures |d| == FRAME
    ensures forall i :: 0 <= i < FRAME ==> d[i] == if id * FRAME + i < |image| then image[id * FRAME + i] else 0xFF
  {
    seq(FRAME, i requires 0 <= i < FRAME => if id * FRAME + i < |image| then image[id * FRAME + i] else 0xFF)
  }

  function PacketPayload(image: seq<Byte>, id: nat): (p: seq<Byte>)
    requires id < PacketTotal(|image|)
    ensures |p| == PACKET_LENGTH
  {
    PutU16(id) + PacketData(image, id)
  }

  function PutCrc(c: Crc): (b: seq<Byte>)
    ensures |b| == 2
  {
    [(c >> 8) as Byte, (c & 0xFF) as Byte]
  }

  /** An update request: image size, hardware, library and firmware revision, checksum. */
  function UpdateRequest(image: seq<Byte>): (p: seq<Byte>)
    requires 0 < |image| <= MAX_IMAGE
    ensures |p| == REQUEST_LENGTH
  {
    [(|image| / 0x1_0000) as Byte, (|image| / 0x100 % 0x100) as Byte, (|image| % 0x100) as Byte, 1, 0, 1, 0, 1]
    + PutCrc(Crc16.Of(image))
  }

  /** The target reads back the packet number and data it was sent. */
  lemma PayloadReadsBack(image: seq<Byte>, id: nat)
    requires id < PacketTotal(|image|) && id < 0x1_0000
    ensures GetU16(PacketPayload(image, id)[..2]) == id && PacketPayload(image, id)[2..] == PacketData(image, id)
  {
    U16RoundTrip(id);
    assert PacketPayload(image, id)[..2] == PutU16(id);
  }

  lemma CrcHalves(c: Crc)
    ensures (((c >> 8) as Byte as Crc) << 8) ^ ((c & 0xFF) as Byte as Crc) == c
  {
  }

  lemma CrcRoundTrip(c: Crc)
    ensures ReadCrc(PutCrc(c)) == c
  {
    CrcHalves(c);
  }

  lemma CrcHalvesBack(high: Byte, low: Byte)
    ensures var c := ((high as Crc) << 8) ^ (low as Crc); (c >> 8) as Byte == high && (c & 0xFF) as Byte == low
  {
  }

  lemma CrcRoundTripBack(b: seq<Byte>)
    requires |b| == 2
    ensures PutCrc(ReadCrc(b)) == b
  {
    CrcHalvesBack(b[0], b[1]);
  }

  /** A number below 2^24 is its three digits to the base 256. */
  lemma Digits(n: nat)
    ensures n / 0x1_0000 * 0x1_0000 + n / 0x100 % 0x100 * 0x100 + n % 0x100 == n
  {
    assert n / 0x100 == n / 0x1_0000 * 0x100 + n / 0x100 % 0x100;
  }

  lemma SizeReadsBack(image: seq<Byte>)
    requires 0 < |image| <= MAX_IMAGE
    ensures RequestSize(UpdateRequest(image)) == |image|
  {
    hide Crc16.Of, PutCrc;
    var n := |image|;
    Digits(n);
    ByteRoundTrip(n / 0x1_0000);
    ByteRoundTrip(n / 0x100 % 0x100);
    ByteRoundTrip(n % 0x100);
  }

  /** The target reads back the size and checksum it was sent, and revision 1 of everything. */
  lemma RequestReadsBack(image: seq<Byte>)
    requires 0 < |image| <= MAX_IMAGE
    ensures RequestSize(UpdateRequest(image)) == |image|
    ensures ReadCrc(UpdateRequest(image)[8..10]) == Crc16.Of(image)
    ensures UpdateRequest(image)[3..8] == [1, 0, 1, 0, 1]
  {
    hide Crc16.Of, PutCrc, ReadCrc, RequestSize;
    SizeReadsBack(image);
    CrcRoundTrip(Crc16.Of(image));
    assert UpdateRequest(image)[8..10] == PutCrc(Crc16.Of(image));
  }

  /** The packet list of an image, cut off in order of the ids. The host cannot number more than 65536 packets. */
  method BuildPackets(image: seq<Byte>) returns (ok: bool, packets: seq<seq<Byte>>)
    ensures ok <==> PacketTotal(|image|) <= 0x1_0000
    ensures ok ==> |packets| == PacketTotal(|image|) &&
                   forall id :: 0 <= id < |packets| ==> packets[id] == PacketPayload(image, id)
  {
    packets := [];
    var offset := 0;
    while offset < |image|
      invariant offset == |packets| * FRAME && |packets| <= PacketTotal(|image|)
      invariant |packets| <= 0x1_0000
      invariant forall id :: 0 <= id < |packets| ==> packets[id] == PacketPayload(image, id)
      decreases |image| - offset
    {
      var id := |packets|;
      if id >= 0x1_0000 {
        return false, [];
      }
      var chunk := image[offset..if offset + FRAME <= |image| then offset + FRAME else |image|];
      if |chunk| < FRAME {
        chunk := chunk + Erased(FRAME - |chunk|);
      }
      assert chunk == PacketData(image, id);
      packets := packets + [PutU16(id) + chunk];
      offset := offset + FRAME;
    }
    ok := true;
  }
}
