/** Frames on the serial line between the PC and the bridge: how one is built, how the bridge finds its start in a
    stream with noise and one-letter requests in it, and what the checksum guards. */
module UartFraming {
  import opened Bytes
  import opened Register16
  import opened FirmwareImage
  import opened FirmwareSession
  import Crc16

  const SOF: seq<Byte> := [0x42, 0x4C, 0x55, 0x50]
  const PROBE: Byte := 0x3F
  const DEBUG_NEXT: Byte := 0x44
  const ADC_REQUEST: Byte := 0x41
  const VERSION: Byte := 1
  const TAIL: nat := 6
  const MAX_PAYLOAD: nat := 264

  datatype Problem = InvalidLength | InvalidVersion | FrameCrcMismatch

  /** `used` bytes of the stream were taken. A stream that ends inside a frame is a byte that does not come in time. */
  datatype Reading =
    | Frame(command: Byte, sequence: nat, payload: seq<Byte>, used: nat)
    | Refused(problem: Problem, used: nat)
    | Hunting

  // ---- building ----

  function HeaderTail(command: Byte, sequence: nat, length: nat): (t: seq<Byte>)
    ensures |t| == TAIL
  {
    [VERSION, command] + PutU16(sequence) + PutU16(length)
  }

  function BuildFrame(command: Byte, sequence: nat, payload: seq<Byte>): seq<Byte> {
    var tail := HeaderTail(command, sequence, |payload|);
    SOF + tail + payload + PutCrc(Crc16.Of(tail + payload))
  }

  // ---- the start of a frame ----

  /** A letter that is a request of its own while no frame is being read. */
  predicate IsRequest(b: Byte) { b == PROBE || b == DEBUG_NEXT || b == ADC_REQUEST }

  function Filtered(s: seq<Byte>): seq<Byte> {
    if s == [] then []
    else
      var n := |s| - 1;
      if IsRequest(s[n]) then Filtered(s[..n]) else Filtered(s[..n]) + [s[n]]
  }

  predicate EndsWith(s: seq<Byte>, k: nat)
    requires k <= |SOF|
  {
    |s| >= k && s[|s| - k..] == SOF[..k]
  }

  predicate StartsAt(s: seq<Byte>, i: nat) { i + |SOF| <= |s| && s[i..i + |SOF|] == SOF }

  /** The frame start is somewhere in `s`. */
  ghost predicate Occurs(s: seq<Byte>) { exists i: nat :: StartsAt(s, i) }

  /** One byte of the hunt, `index` bytes of the start having been seen. */
  function HuntByte(index: nat, b: Byte): (next: nat)
    requires index < |SOF|
    ensures next <= |SOF|
  {
    if IsRequest(b) then index
    else if b == SOF[index] then index + 1
    else if b == SOF[0] then 1 else 0
  }

  /** How much of the frame start the filtered stream ends with. */
  function Progress(s: seq<Byte>): (k: nat)
    ensures k <= |SOF| && EndsWith(s, k) && forall j :: k < j <= |SOF| ==> !EndsWith(s, j)
  {
    if EndsWith(s, 4) then 4
    else if EndsWith(s, 3) then 3
    else if EndsWith(s, 2) then 2
    else if EndsWith(s, 1) then 1
    else 0
  }

  lemma EndsWithSnoc(s: seq<Byte>, b: Byte, k: nat)
    requires 0 < k <= |SOF|
    ensures EndsWith(s + [b], k) <==> EndsWith(s, k - 1) && b == SOF[k - 1]
  {
    var t := s + [b];
    if |t| >= k {
      assert t[|t| - k..] == s[|s| - (k - 1)..] + [b];
      assert SOF[..k] == SOF[..k - 1] + [SOF[k - 1]];
    }
  }

  lemma EndsWithNothing(s: seq<Byte>)
    ensures EndsWith(s, 0)
  {
  }

  lemma LastLetter(s: seq<Byte>, k: nat)
    requires 0 < k <= |SOF| && EndsWith(s, k)
    ensures s != [] && s[|s| - 1] == SOF[k - 1]
  {
    assert s[|s| - k..][k - 1] == SOF[..k][k - 1];
  }

  lemma OnlyOne(s: seq<Byte>)
    ensures forall j, k :: 0 < j < k <= |SOF| && EndsWith(s, j) ==> !EndsWith(s, k)
  {
    forall j: nat, k: nat | 0 < j < k <= |SOF| && EndsWith(s, j)
      ensures !EndsWith(s, k)
    {
      LastLetter(s, j);
      if EndsWith(s, k) {
        LastLetter(s, k);
      }
    }
  }

  /** The four letters differ, so a mismatch can only leave the first of them. */
  lemma ProgressSnoc(s: seq<Byte>, b: Byte)
    requires Progress(s) < |SOF| && !IsRequest(b)
    ensures Progress(s + [b]) == HuntByte(Progress(s), b)
  {
    hide EndsWith;
    forall k: nat | k < |SOF|
      ensures EndsWith(s + [b], k + 1) <==> EndsWith(s, k) && b == SOF[k]
    {
      EndsWithSnoc(s, b, k + 1);
    }
    EndsWithNothing(s);
    OnlyOne(s);
    assert EndsWith(s + [b], 1) <==> b == SOF[0];
    assert EndsWith(s + [b], 2) <==> EndsWith(s, 1) && b == SOF[1];
    assert EndsWith(s + [b], 3) <==> EndsWith(s, 2) && b == SOF[2];
    assert EndsWith(s + [b], 4) <==> EndsWith(s, 3) && b == SOF[3];
  }

  lemma OccursSnoc(s: seq<Byte>, b: Byte)
    ensures Occurs(s + [b]) <==> Occurs(s) || EndsWith(s + [b], |SOF|)
  {
    var t := s + [b];
    forall i: nat | i + |SOF| <= |s|
      ensures StartsAt(t, i) == StartsAt(s, i)
    {
      assert t[i..i + |SOF|] == s[i..i + |SOF|];
    }
    if EndsWith(t, |SOF|) {
      assert StartsAt(t, |t| - |SOF|);
    }
    if Occurs(t) {
      var i: nat :| StartsAt(t, i);
      assert i + |SOF| <= |s| || EndsWith(t, |SOF|);
    }
    if Occurs(s) {
      var i: nat :| StartsAt(s, i);
      assert StartsAt(t, i);
    }
  }

  /** The length of the shortest prefix of `s` that contains the start, requests left out; none if there is none. */
  ghost predicate FirstStart(s: seq<Byte>, end: Option<nat>) {
    match end
    case None => !Occurs(Filtered(s))
    case Some(n) => n <= |s| && Occurs(Filtered(s[..n])) && forall m :: 0 <= m < n ==> !Occurs(Filtered(s[..m]))
  }

  function CountOf(s: seq<Byte>, b: Byte): nat {
    if s == [] then 0 else CountOf(s[..|s| - 1], b) + if s[|s| - 1] == b then 1 else 0
  }

  lemma Nothing(s: seq<Byte>)
    ensures s[..0] == [] && Filtered([]) == [] && Progress([]) == 0 && !Occurs([])
    ensures forall b :: CountOf([], b) == 0
  {
  }

  /** What one more byte does to the hunt and to the counts. */
  lemma ReadOne(s: seq<Byte>, i: nat)
    requires i < |s| && Progress(Filtered(s[..i])) < |SOF| && !Occurs(Filtered(s[..i]))
    ensures Progress(Filtered(s[..i + 1])) == HuntByte(Progress(Filtered(s[..i])), s[i])
    ensures Occurs(Filtered(s[..i + 1])) <==> Progress(Filtered(s[..i + 1])) == |SOF|
    ensures forall b :: CountOf(s[..i + 1], b) == CountOf(s[..i], b) + if s[i] == b then 1 else 0
  {
    hide EndsWith, Occurs;
    assert s[..i + 1][..i] == s[..i];
    if !IsRequest(s[i]) {
      ProgressSnoc(Filtered(s[..i]), s[i]);
      OccursSnoc(Filtered(s[..i]), s[i]);
    }
  }

  /** The bridge reads byte by byte, answers probes and debug requests, passes on sample requests, and stops at the
      first frame start of what remains. */
  method HuntStart(stream: seq<Byte>) returns (end: Option<nat>, probes: nat, debugs: nat, samples: nat)
    ensures FirstStart(stream, end)
    ensures var read := if end.Some? then stream[..end.value] else stream;
            probes == CountOf(read, PROBE) && debugs == CountOf(read, DEBUG_NEXT) &&
                samples == CountOf(read, ADC_REQUEST)
  {
    hide EndsWith, Occurs, Progress, Filtered, CountOf;
    var index := 0;
    var i := 0;
    probes, debugs, samples := 0, 0, 0;
    Nothing(stream);
    while i < |stream|
      invariant i <= |stream| && index < |SOF| && index == Progress(Filtered(stream[..i]))
      invariant forall m :: 0 <= m <= i ==> !Occurs(Filtered(stream[..m]))
      invariant probes == CountOf(stream[..i], PROBE)
      invariant debugs == CountOf(stream[..i], DEBUG_NEXT) && samples == CountOf(stream[..i], ADC_REQUEST)
    {
      var b := stream[i];
      ReadOne(stream, i);
      i := i + 1;
      if b == PROBE {
        probes := probes + 1;
      } else if b == DEBUG_NEXT {
        debugs := debugs + 1;
      } else if b == ADC_REQUEST {
        samples := samples + 1;
      } else if b == SOF[index] {
        index := index + 1;
        if index == |SOF| {
          return Some(i), probes, debugs, samples;
        }
      } else {
        index := if b == SOF[0] then 1 else 0;
      }
    }
    assert stream[..i] == stream;
    return None, probes, debugs, samples;
  }

  lemma {:induction false} OccursPrefix(s: seq<Byte>, n: nat)
    requires n <= |s|
    ensures Occurs(Filtered(s[..n])) ==> Occurs(Filtered(s))
    decreases |s| - n
  {
    hide EndsWith, Occurs;
    if n == |s| {
      assert s[..n] == s;
    } else {
      assert s[..n + 1][..n] == s[..n];
      if !IsRequest(s[n]) {
        OccursSnoc(Filtered(s[..n]), s[n]);
      }
      OccursPrefix(s, n + 1);
    }
  }

  /** There is one first start. */
  lemma FirstStartUnique(s: seq<Byte>, a: Option<nat>, b: Option<nat>)
    requires FirstStart(s, a) && FirstStart(s, b)
    ensures a == b
  {
    if a.Some? && b.None? {
      OccursPrefix(s, a.value);
    } else if a.None? && b.Some? {
      OccursPrefix(s, b.value);
    }
  }

  // ---- reading ----

  /** A frame read after its start: `s` is the rest of the stream. */
  function ReadBody(s: seq<Byte>): Reading {
    if |s| < TAIL then Refused(InvalidLength, |s|)
    else if s[0] != VERSION then Refused(InvalidVersion, TAIL)
    else
      var n := GetU16(s[4..6]);
      if n > MAX_PAYLOAD then Refused(InvalidLength, TAIL)
      else if |s| < TAIL + n + 2 then Refused(InvalidLength, |s|)
      else if FirmwareSession.ReadCrc(s[TAIL + n..TAIL + n + 2])
              != Crc16.Update(Crc16.Of(s[..TAIL]), s[TAIL..TAIL + n]) then
        Refused(FrameCrcMismatch, TAIL + n + 2)
      else Frame(s[1], GetU16(s[2..4]), s[TAIL..TAIL + n], TAIL + n + 2)
  }

  function Advance(r: Reading, n: nat): Reading {
    match r
    case Hunting => Hunting
    case Refused(p, used) => Refused(p, used + n)
    case Frame(c, q, d, used) => Frame(c, q, d, used + n)
  }

  /** The reading a stream leads to, whichever way the start is found. */
  ghost predicate Reads(stream: seq<Byte>, r: Reading) {
    exists start: Option<nat> ::
      FirstStart(stream, start) &&
      r == if start.Some? then Advance(ReadBody(stream[start.value..]), start.value) else Hunting
  }

  method ReadFrame(stream: seq<Byte>) returns (r: Reading)
    ensures Reads(stream, r)
  {
    hide ReadBody, Filtered, Occurs;
    var end, probes, debugs, samples := HuntStart(stream);
    if end.None? {
      return Hunting;
    }
    r := Advance(ReadBody(stream[end.value..]), end.value);
  }

  lemma CrcSplit(x: seq<Byte>, y: seq<Byte>)
    ensures Crc16.Of(x + y) == Crc16.Update(Crc16.Of(x), y)
  {
    Crc16.UpdateConcat(Crc16.INIT, x, y);
  }

  /** A frame with at most 264 bytes of payload is read back whole, whatever follows it; a longer one is refused. */
  lemma BodyReadsBack(command: Byte, sequence: nat, payload: seq<Byte>, rest: seq<Byte>)
    requires sequence < 0x1_0000 && |payload| < 0x1_0000
    ensures ReadBody(BuildFrame(command, sequence, payload)[4..] + rest) ==
            if |payload| <= MAX_PAYLOAD then Frame(command, sequence, payload, TAIL + |payload| + 2)
            else Refused(InvalidLength, TAIL)
  {
    hide Crc16.Of, Crc16.Update, PutCrc, FirmwareSession.ReadCrc, PutU16, GetU16;
    var tail, n := HeaderTail(command, sequence, |payload|), |payload|;
    var crc := Crc16.Of(tail + payload);
    var s := BuildFrame(command, sequence, payload)[4..] + rest;
    assert s == tail + payload + PutCrc(crc) + rest;
    U16RoundTrip(sequence);
    U16RoundTrip(n);
    CrcRoundTrip(crc);
    assert s[2..4] == PutU16(sequence) && s[4..6] == PutU16(n);
    assert s[..TAIL] == tail && s[TAIL..TAIL + n] == payload;
    assert s[TAIL + n..TAIL + n + 2] == PutCrc(crc);
    CrcSplit(tail, payload);
  }

  /** Nothing is read but what a sender builds: the bytes a frame is read from are the frame of what was read. */
  lemma FrameIsBuilt(s: seq<Byte>, command: Byte, sequence: nat, payload: seq<Byte>, used: nat)
    ensures ReadBody(s) == Frame(command, sequence, payload, used) <==>
            && |payload| <= MAX_PAYLOAD && sequence < 0x1_0000 && used == TAIL + |payload| + 2
            && BuildFrame(command, sequence, payload)[4..] <= s
  {
    hide Crc16.Of, Crc16.Update, PutCrc, FirmwareSession.ReadCrc, PutU16, GetU16;
    if |payload| <= MAX_PAYLOAD && sequence < 0x1_0000 && BuildFrame(command, sequence, payload)[4..] <= s {
      var frame := BuildFrame(command, sequence, payload)[4..];
      BodyReadsBack(command, sequence, payload, s[|frame|..]);
      assert frame + s[|frame|..] == s;
    }
    if ReadBody(s) == Frame(command, sequence, payload, used) {
      var tail, crc := s[..TAIL], s[TAIL + |payload|..used];
      U16RoundTripBack(s[2..4]);
      U16RoundTripBack(s[4..6]);
      assert tail == HeaderTail(command, sequence, |payload|);
      CrcSplit(tail, payload);
      CrcRoundTripBack(crc);
      assert BuildFrame(command, sequence, payload)[4..] == tail + payload + crc == s[..used];
    }
  }

  // ---- noise ----

  lemma {:induction false} NoStartNoProgress(s: seq<Byte>)
    ensures Occurs(Filtered(s)) || Progress(Filtered(s)) < |SOF|
  {
    hide Filtered;
    var f := Filtered(s);
    if EndsWith(f, |SOF|) {
      assert StartsAt(f, |f| - |SOF|);
    }
  }

  /** After noise without a start, the start is found where the frame has it. */
  lemma StartAfterNoise(noise: seq<Byte>, rest: seq<Byte>)
    requires !Occurs(Filtered(noise))
    ensures FirstStart(noise + SOF + rest, Some(|noise| + |SOF|))
  {
    hide Progress, Occurs, Filtered, EndsWith;
    var s, n := noise + SOF + rest, |noise|;
    assert s[..n] == noise;
    NoStartNoProgress(noise);
    forall m | 0 <= m <= n
      ensures !Occurs(Filtered(s[..m]))
    {
      assert s[..m] == noise[..m];
      OccursPrefix(noise, m);
    }
    ReadOne(s, n);
    ReadOne(s, n + 1);
    ReadOne(s, n + 2);
    ReadOne(s, n + 3);
    forall m | n < m < n + 4
      ensures !Occurs(Filtered(s[..m]))
    {
      assert m == n + 1 || m == n + 2 || m == n + 3;
    }
  }

  /** Whatever comes before it, as long as no start is in it, and whatever comes after, a frame that was built is
      read. */
  lemma FrameAfterNoise(noise: seq<Byte>, command: Byte, sequence: nat, payload: seq<Byte>, rest: seq<Byte>, r: Reading)
    requires !Occurs(Filtered(noise)) && sequence < 0x1_0000 && |payload| <= MAX_PAYLOAD
    ensures var frame := BuildFrame(command, sequence, payload);
            Reads(noise + frame + rest, r) <==> r == Frame(command, sequence, payload, |noise| + |frame|)
  {
    hide Occurs, Filtered, ReadBody, FirstStart, HeaderTail, Crc16.Of, PutCrc;
    var frame := BuildFrame(command, sequence, payload);
    var stream := noise + frame + rest;
    assert stream == noise + SOF + (frame[4..] + rest);
    StartAfterNoise(noise, frame[4..] + rest);
    assert stream[|noise| + 4..] == frame[4..] + rest;
    BodyReadsBack(command, sequence, payload, rest);
    forall start: Option<nat> | FirstStart(stream, start)
      ensures start == Some(|noise| + 4)
    {
      FirstStartUnique(stream, start, Some(|noise| + 4));
    }
    assert FirstStart(stream, Some(|noise| + 4));
    assert Advance(ReadBody(stream[|noise| + 4..]), |noise| + 4) ==
        Frame(command, sequence, payload, |noise| + |frame|);
  }

  // ---- whole streams ----

  datatype Sent = Sent(noise: seq<Byte>, command: Byte, sequence: nat, payload: seq<Byte>)

  ghost predicate Sendable(m: Sent) {
    !Occurs(Filtered(m.noise)) && m.sequence < 0x1_0000 && |m.payload| <= MAX_PAYLOAD
  }

  function Line(sent: seq<Sent>): seq<Byte> {
    if sent == [] then []
    else sent[0].noise + BuildFrame(sent[0].command, sent[0].sequence, sent[0].payload) + Line(sent[1..])
  }

  ghost predicate Carries(stream: seq<Byte>, sent: seq<Sent>) {
    stream == Line(sent) && forall m <- sent :: Sendable(m)
  }

  /** Every turn of the receive loop takes something from the stream. */
  lemma ReadingTakes(stream: seq<Byte>, r: Reading)
    requires Reads(stream, r)
    ensures r != Hunting ==> 0 < r.used <= |stream|
  {
    hide Filtered, Occurs;
    Nothing(stream);
  }

  lemma NothingToRead(r: Reading)
    requires Reads([], r)
    ensures r == Hunting
  {
    hide Filtered, Occurs;
    Nothing([]);
  }

  lemma NextFrame(sent: seq<Sent>, stream: seq<Byte>, r: Reading)
    requires sent != [] && Carries(stream, sent) && Reads(stream, r)
    ensures r.Frame? && r.command == sent[0].command && r.sequence == sent[0].sequence && r.payload == sent[0].payload
    ensures r.used <= |stream| && Carries(stream[r.used..], sent[1..])
  {
    hide FirstStart, Occurs, Filtered, ReadBody, BuildFrame;
    var m, rest := sent[0], Line(sent[1..]);
    assert m in sent && Sendable(m);
    assert forall n <- sent[1..] :: n in sent;
    FrameAfterNoise(m.noise, m.command, m.sequence, m.payload, rest, r);
  }

  /** The bridge's receive loop: frames are read, good or bad, until the stream has no further start. Of a stream that
      carries frames with noise between them, exactly those are received. */
  method ReadAll(stream: seq<Byte>, ghost sent: seq<Sent>) returns (frames: seq<(Byte, nat, seq<Byte>)>)
    ensures Carries(stream, sent) ==>
              && |frames| == |sent|
              && forall i :: 0 <= i < |sent| ==> frames[i] == (sent[i].command, sent[i].sequence, sent[i].payload)
  {
    hide Reads, BuildFrame, Sendable;
    frames := [];
    var rest := stream;
    ghost var clean := Carries(stream, sent);
    assert sent[0..] == sent;
    while true
      invariant clean ==> |frames| <= |sent| && Carries(rest, sent[|frames|..])
      invariant clean ==>
                  forall i :: 0 <= i < |frames| ==> frames[i] == (sent[i].command, sent[i].sequence, sent[i].payload)
      decreases |rest|
    {
      var r := ReadFrame(rest);
      ReadingTakes(rest, r);
      if clean {
        if |frames| == |sent| {
          assert sent[|frames|..] == [];
          NothingToRead(r);
        } else {
          NextFrame(sent[|frames|..], rest, r);
          assert sent[|frames|..][1..] == sent[|frames| + 1..];
        }
      }
      match r {
        case Hunting =>
          return frames;
        case Refused(_, used) =>
          rest := rest[used..];
        case Frame(command, sequence, payload, used) =>
          frames := frames + [(command, sequence, payload)];
          rest := rest[used..];
      }
    }
  }

  // ---- what the checksum guards ----

  /** `s` with the byte at `at` changed. */
  lemma OneByteChanged(s: seq<Byte>, at: nat, b: Byte)
    requires at < |s|
    ensures s == s[..at] + [s[at]] + s[at + 1..] && s[at := b] == s[..at] + [b] + s[at + 1..]
  {
  }

  lemma TailFields(command: Byte, sequence: nat, payload: seq<Byte>)
    requires |payload| <= MAX_PAYLOAD
    ensures var covered := HeaderTail(command, sequence, |payload|) + payload;
            |covered| == TAIL + |payload| && covered[0] == VERSION && GetU16(covered[4..6]) == |payload|
  {
    hide PutU16, GetU16;
    U16RoundTrip(|payload|);
    var covered := HeaderTail(command, sequence, |payload|) + payload;
    assert covered[4..6] == PutU16(|payload|);
  }

  /** A frame whose version is wrong, or whose checksum bytes are not those of what they cover. */
  lemma BodyRefused(covered: seq<Byte>, crc: seq<Byte>, n: nat, rest: seq<Byte>)
    requires |covered| == TAIL + n && |crc| == 2 && n <= MAX_PAYLOAD && GetU16(covered[4..6]) == n
    requires covered[0] != VERSION || FirmwareSession.ReadCrc(crc) != Crc16.Of(covered)
    ensures ReadBody(covered + crc + rest) ==
            if covered[0] != VERSION then Refused(InvalidVersion, TAIL) else Refused(FrameCrcMismatch, TAIL + n + 2)
  {
    hide Crc16.Of, Crc16.Update, FirmwareSession.ReadCrc, GetU16;
    var s := covered + crc + rest;
    assert s[4..6] == covered[4..6] && s[0] == covered[0];
    assert s[TAIL + n..TAIL + n + 2] == crc;
    assert s[..TAIL] + s[TAIL..TAIL + n] == covered;
    CrcSplit(s[..TAIL], s[TAIL..TAIL + n]);
  }

  lemma CoveredChanged(s: seq<Byte>, at: nat, b: Byte)
    requires at < |s| && b != s[at]
    ensures Crc16.Of(s[at := b]) != Crc16.Of(s)
  {
    OneByteChanged(s, at, b);
    Crc16.ByteErrorDetected(Crc16.INIT, s[..at], s[at], b, s[at + 1..]);
  }

  lemma CrcBytesChanged(c: Crc, at: nat, b: Byte)
    requires at < 2 && b != PutCrc(c)[at]
    ensures FirmwareSession.ReadCrc(PutCrc(c)[at := b]) != c
  {
  }

  /** One byte of command, sequence, payload or checksum changed makes the frame refused for its checksum, and a
      changed version byte for its version. Only the length bytes are not covered by this. */
  lemma OneByteErrorRefused(command: Byte, sequence: nat, payload: seq<Byte>, rest: seq<Byte>, at: nat, b: Byte)
    requires sequence < 0x1_0000 && |payload| <= MAX_PAYLOAD
    requires at < TAIL + |payload| + 2 && at != 4 && at != 5 && b != BuildFrame(command, sequence, payload)[4 + at]
    ensures ReadBody((BuildFrame(command, sequence, payload)[4..])[at := b] + rest) ==
            if at == 0 then Refused(InvalidVersion, TAIL) else Refused(FrameCrcMismatch, TAIL + |payload| + 2)
  {
    hide Crc16.Of, Crc16.Update, PutCrc, ReadBody, HeaderTail, FirmwareSession.ReadCrc;
    var covered := HeaderTail(command, sequence, |payload|) + payload;
    var crc := Crc16.Of(covered);
    var body := covered + PutCrc(crc);
    assert BuildFrame(command, sequence, payload)[4..] == body;
    TailFields(command, sequence, payload);
    CrcRoundTrip(crc);
    if at < |covered| {
      assert body[at := b] == covered[at := b] + PutCrc(crc);
      if at > 0 {
        CoveredChanged(covered, at, b);
      }
      BodyRefused(covered[at := b], PutCrc(crc), |payload|, rest);
    } else {
      assert body[at := b] == covered + PutCrc(crc)[at - |covered| := b];
      CrcBytesChanged(crc, at - |covered|, b);
      BodyRefused(covered, PutCrc(crc)[at - |covered| := b], |payload|, rest);
    }
  }

  lemma PairChanged(tail: seq<Byte>, payload: seq<Byte>, at: nat, a: Byte, b: Byte)
    requires at + 1 < |payload| && (a != payload[at] || b != payload[at + 1])
    ensures Crc16.Of(tail + payload[at := a][at + 1 := b]) != Crc16.Of(tail + payload)
  {
    var x, y := tail + payload[..at], payload[at + 2..];
    assert tail + payload == x + [payload[at], payload[at + 1]] + y;
    assert tail + payload[at := a][at + 1 := b] == x + [a, b] + y;
    Crc16.PairErrorDetected(Crc16.INIT, x, payload[at], payload[at + 1], a, b, y);
  }

  /** Two adjacent payload bytes changed in any way are noticed as well. */
  lemma TwoByteErrorRefused(command: Byte, sequence: nat, payload: seq<Byte>, rest: seq<Byte>, at: nat, a: Byte,
                            b: Byte)
    requires sequence < 0x1_0000 && |payload| <= MAX_PAYLOAD && at + 1 < |payload| &&
               (a != payload[at] || b != payload[at + 1])
    ensures var good := HeaderTail(command, sequence, |payload|);
            ReadBody(good + payload[at := a][at + 1 := b] + PutCrc(Crc16.Of(good + payload)) + rest) ==
            Refused(FrameCrcMismatch, TAIL + |payload| + 2)
  {
    hide Crc16.Of, Crc16.Update, PutCrc, FirmwareSession.ReadCrc, ReadBody, HeaderTail;
    var tail, changed := HeaderTail(command, sequence, |payload|), payload[at := a][at + 1 := b];
    var crc := Crc16.Of(tail + payload);
    TailFields(command, sequence, changed);
    CrcRoundTrip(crc);
    PairChanged(tail, payload, at, a, b);
    BodyRefused(tail + changed, PutCrc(crc), |payload|, rest);
  }

  // ---- the bridge's own frames ----

  lemma FrameCrc(tail: seq<Byte>, payload: seq<Byte>, crc: Crc)
    requires crc == if |payload| > 0 then Crc16.Update(Crc16.Update(Crc16.INIT, tail), payload)
               else Crc16.Update(Crc16.INIT, tail)
    ensures crc == Crc16.Of(tail + payload)
  {
    CrcSplit(tail, payload);
    Crc16.UpdateNil(Crc16.Of(tail));
  }

  lemma Appended(was: seq<Byte>, a: seq<Byte>, b: seq<Byte>, c: seq<Byte>, d: seq<Byte>)
    ensures was + a + b + c + d == was + (a + b + c + d)
    ensures c == [] ==> was + a + b + d == was + (a + b + c + d)
  {
    assert c == [] ==> b + c == b;
  }

  lemma FrameSent(was: seq<Byte>, command: Byte, sequence: nat, payload: seq<Byte>, crc: Crc, line: seq<Byte>)
    requires var tail := HeaderTail(command, sequence, |payload|);
             && crc == (if |payload| > 0 then Crc16.Update(Crc16.Update(Crc16.INIT, tail), payload)
                        else Crc16.Update(Crc16.INIT, tail))
             && line == (if |payload| > 0 then was + SOF + tail + payload else was + SOF + tail) + PutCrc(crc)
    ensures line == was + BuildFrame(command, sequence, payload)
  {
    hide HeaderTail, PutCrc, Crc16.Of, Crc16.Update;
    var tail := HeaderTail(command, sequence, |payload|);
    FrameCrc(tail, payload, crc);
    Appended(was, SOF, tail, payload, PutCrc(crc));
  }

  /** The bridge's sender: what goes out on the line is the frame the PC tool would build, under a running number. */
  class Sender {
    var sequence: nat
    var line: seq<Byte>

    constructor ()
      ensures sequence == 0 && line == []
    {
      sequence, line := 0, [];
    }

    method SendFrame(command: Byte, payload: seq<Byte>) returns (ok: bool)
      requires sequence < 0x1_0000
      modifies this
      ensures ok <==> |payload| <= MAX_PAYLOAD
      ensures line == old(line) + if ok then BuildFrame(command, old(sequence), payload) else []
      ensures sequence == (if ok then (old(sequence) + 1) % 0x1_0000 else old(sequence)) < 0x1_0000
    {
      hide HeaderTail, PutCrc, Crc16.Of, Crc16.Update, BuildFrame;
      if |payload| > MAX_PAYLOAD {
        return false;
      }
      ghost var was := line;
      var tail := HeaderTail(command, sequence, |payload|);
      var crc := Crc16.UpdateLoop(Crc16.INIT, tail);
      if |payload| > 0 {
        crc := Crc16.UpdateLoop(crc, payload);
      }
      line := line + SOF;
      line := line + tail;
      if |payload| > 0 {
        line := line + payload;
      }
      line := line + PutCrc(crc);
      FrameSent(was, command, sequence, payload, crc, line);
      sequence := (sequence + 1) % 0x1_0000;
      return true;
    }
  }
}
