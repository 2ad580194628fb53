/** The decoder of the ADC viewer: a start-up header with descriptors, then six-byte samples, out of a stream that comes
    in pieces of any size. */
module AdcDecoder {
  import opened Bytes

  const MAGIC: seq<Byte> := [0x41, 0x44, 0x43, 0x46]
  const DESCRIPTOR_SIZE: nat := 4
  const PACKET_SIZE: nat := 6
  const MAX_DESCRIPTORS: nat := 64

  datatype Item =
    | Descriptor(device: nat, channel: nat, resolution: nat, kind: nat)
    | Sample(device: nat, channel: nat, resolution: nat, kind: nat, value: nat)

  datatype Decoder = Decoder(buffer: seq<Byte>, discarded: nat, started: bool, count: nat, expected: Option<nat>)

  const FRESH := Decoder([], 0, false, 0, None)

  predicate Plausible(c: seq<Byte>)
    requires |c| >= DESCRIPTOR_SIZE
  {
    Value(c[0]) <= 1 && Value(c[1]) < 32 && Value(c[2]) <= 1 && Value(c[3]) <= 4
  }

  /** The `i`-th descriptor's bytes. */
  function Candidate(b: seq<Byte>, i: nat): (c: seq<Byte>)
    requires (i + 1) * DESCRIPTOR_SIZE <= |b|
    ensures |c| == DESCRIPTOR_SIZE
  {
    b[i * DESCRIPTOR_SIZE..(i + 1) * DESCRIPTOR_SIZE]
  }

  predicate AllPlausible(b: seq<Byte>, n: nat)
    requires n * DESCRIPTOR_SIZE <= |b|
  {
    forall i :: 0 <= i < n ==> Plausible(Candidate(b, i))
  }

  function DescriptorOf(c: seq<Byte>): Item
    requires |c| >= DESCRIPTOR_SIZE
  {
    Descriptor(Value(c[0]), Value(c[1]), Value(c[2]), Value(c[3]))
  }

  function Descriptors(b: seq<Byte>, n: nat): (items: seq<Item>)
    requires n * DESCRIPTOR_SIZE <= |b|
    ensures |items| == n
  {
    seq(n, i requires 0 <= i < n => DescriptorOf(Candidate(b, i)))
  }

  function SampleOf(c: seq<Byte>): Item
    requires |c| == PACKET_SIZE
  {
    Sample(Value(c[0]), Value(c[1]), Value(c[2]), Value(c[3]), Value(c[4]) * 256 + Value(c[5]))
  }

  // ---- one decision at a time ----

  function Drop(s: Decoder, n: nat): Decoder
    requires n <= |s.buffer|
  {
    s.(buffer := s.buffer[n..])
  }

  function Discard(s: Decoder, n: nat): Decoder
    requires n <= |s.buffer|
  {
    Drop(s, n).(discarded := s.discarded + n)
  }

  function DecideHeader(s: Decoder): Option<(Decoder, seq<Item>)> {
    if |s.buffer| < 4 then None
    else if s.buffer[..4] != MAGIC then Some((Discard(s, 1), []))
    else if |s.buffer| < 5 then None
    else
      var n := s.buffer[4] as nat;
      Some((if n == 0 || n > MAX_DESCRIPTORS then Discard(s, 5) else Drop(s, 5).(expected := Some(n)), []))
  }

  function DecideDescriptors(s: Decoder): Option<(Decoder, seq<Item>)>
    requires s.expected.Some?
  {
    var n := s.expected.value;
    if |s.buffer| < n * DESCRIPTOR_SIZE then None
    else if AllPlausible(s.buffer, n) then
      Some((Drop(s, n * DESCRIPTOR_SIZE).(expected := None, count := n, started := true), Descriptors(s.buffer, n)))
    else Some((Discard(s, n * DESCRIPTOR_SIZE).(expected := None), []))
  }

  function DecideSample(s: Decoder): Option<(Decoder, seq<Item>)> {
    if |s.buffer| < PACKET_SIZE then None
    else if Plausible(s.buffer[..PACKET_SIZE]) then Some((Drop(s, PACKET_SIZE), [SampleOf(s.buffer[..PACKET_SIZE])]))
    else Some((Discard(s, 1), []))
  }

  /** The least that can be decided from the front of the buffer, or nothing while bytes are missing. */
  function Decide(s: Decoder): Option<(Decoder, seq<Item>)> {
    if s.started then DecideSample(s) else if s.expected.None? then DecideHeader(s) else DecideDescriptors(s)
  }

  /** Everything that can be decided from what is in the buffer. */
  function Settle(s: Decoder): (Decoder, seq<Item>)
    decreases |s.buffer|, s.expected.Some?
  {
    match Decide(s)
    case None => (s, [])
    case Some((t, items)) => var (u, more) := Settle(t); (u, items + more)
  }

  /** What one feed decides: it returns as soon as the start-up header is complete. */
  function Pause(s: Decoder): (Decoder, seq<Item>)
    decreases |s.buffer|, s.expected.Some?
  {
    match Decide(s)
    case None => (s, [])
    case Some((t, items)) =>
      if t.started && !s.started then (t, items) else var (u, more) := Pause(t); (u, items + more)
  }

  function With(s: Decoder, data: seq<Byte>): Decoder { s.(buffer := s.buffer + data) }

  function FeedOne(s: Decoder, data: seq<Byte>): (Decoder, seq<Item>) { Pause(With(s, data)) }

  /** Pieces fed one after the other. */
  function FeedAll(s: Decoder, pieces: seq<seq<Byte>>): (Decoder, seq<Item>)
    decreases |pieces|
  {
    if pieces == [] then (s, [])
    else
      var n := |pieces| - 1;
      var (t, items) := FeedAll(s, pieces[..n]);
      var (u, more) := FeedOne(t, pieces[n]);
      (u, items + more)
  }

  function Concat(pieces: seq<seq<Byte>>): seq<Byte> {
    if pieces == [] then [] else Concat(pieces[..|pieces| - 1]) + pieces[|pieces| - 1]
  }

  // ---- pieces do not matter ----

  lemma SampleLocal(s: Decoder, data: seq<Byte>)
    requires DecideSample(s).Some?
    ensures DecideSample(With(s, data)) == Some((With(DecideSample(s).value.0, data), DecideSample(s).value.1))
  {
    hide Plausible, SampleOf;
    var b, c := s.buffer, s.buffer + data;
    assert c[..PACKET_SIZE] == b[..PACKET_SIZE];
    assert c[PACKET_SIZE..] == b[PACKET_SIZE..] + data && c[1..] == b[1..] + data;
  }

  lemma HeaderLocal(s: Decoder, data: seq<Byte>)
    requires DecideHeader(s).Some?
    ensures DecideHeader(With(s, data)) == Some((With(DecideHeader(s).value.0, data), DecideHeader(s).value.1))
  {
    var b, c := s.buffer, s.buffer + data;
    assert c[..4] == b[..4] && c[1..] == b[1..] + data;
    assert b[..4] == MAGIC ==> c[5..] == b[5..] + data && c[4] == b[4];
  }

  lemma SameCandidates(b: seq<Byte>, data: seq<Byte>, n: nat)
    requires n * DESCRIPTOR_SIZE <= |b|
    ensures AllPlausible(b + data, n) == AllPlausible(b, n) && Descriptors(b + data, n) == Descriptors(b, n)
  {
    hide Plausible, DescriptorOf;
    forall i: nat | i < n
      ensures Candidate(b + data, i) == Candidate(b, i)
    {
    }
  }

  lemma DescriptorsLocal(s: Decoder, data: seq<Byte>)
    requires s.expected.Some? && DecideDescriptors(s).Some?
    ensures DecideDescriptors(With(s, data)) == Some((With(DecideDescriptors(s).value.0, data),
                                                      DecideDescriptors(s).value.1))
  {
    hide AllPlausible, Descriptors;
    var n := s.expected.value;
    SameCandidates(s.buffer, data, n);
    assert (s.buffer + data)[n * DESCRIPTOR_SIZE..] == s.buffer[n * DESCRIPTOR_SIZE..] + data;
  }

  /** A decision does not look at bytes that come later. */
  lemma DecideLocal(s: Decoder, data: seq<Byte>)
    requires Decide(s).Some?
    ensures Decide(With(s, data)) == Some((With(Decide(s).value.0, data), Decide(s).value.1))
  {
    hide DecideSample, DecideHeader, DecideDescriptors;
    if s.started {
      SampleLocal(s, data);
    } else if s.expected.None? {
      HeaderLocal(s, data);
    } else {
      DescriptorsLocal(s, data);
    }
  }

  lemma DecideShrinks(s: Decoder)
    requires Decide(s).Some?
    ensures var t := Decide(s).value.0;
            |t.buffer| < |s.buffer| || (|t.buffer| == |s.buffer| && s.expected.Some? && t.expected.None?)
  {
  }

  lemma {:induction false} SettleInTwo(s: Decoder, data: seq<Byte>)
    ensures var (t, items) := Settle(s);
            var (u, more) := Settle(With(t, data));
            Settle(With(s, data)) == (u, items + more)
    decreases |s.buffer|, s.expected.Some?
  {
    hide Decide;
    match Decide(s)
    case None =>
      assert [] + Settle(With(s, data)).1 == Settle(With(s, data)).1;
    case Some((t, items)) =>
      DecideLocal(s, data);
      DecideShrinks(s);
      SettleInTwo(t, data);
      var more, rest := Settle(t).1, Settle(With(Settle(t).0, data)).1;
      assert items + (more + rest) == (items + more) + rest;
  }

  /** Where a feed stops, what is left to decide is what settling would have decided after it. */
  lemma {:induction false} PauseThenSettle(s: Decoder)
    ensures var (t, items) := Pause(s);
            Settle(s) == (Settle(t).0, items + Settle(t).1) && (t.started || Decide(t).None?)
    decreases |s.buffer|, s.expected.Some?
  {
    hide Decide;
    match Decide(s)
    case None =>
      assert Settle(s) == (s, []) == Pause(s);
      assert [] + Settle(s).1 == Settle(s).1;
    case Some((t, items)) =>
      DecideShrinks(s);
      if !(t.started && !s.started) {
        PauseThenSettle(t);
        var more, rest := Pause(t).1, Settle(Pause(t).0).1;
        assert items + (more + rest) == (items + more) + rest;
      }
  }

  lemma {:induction false} StartedSettles(s: Decoder)
    requires s.started || Decide(s).None?
    ensures Pause(s) == Settle(s)
    decreases |s.buffer|
  {
    if Decide(s).None? {
    } else {
      StartedSettles(Decide(s).value.0);
    }
  }

  /** Where a decoder is between feeds. */
  ghost predicate Resting(s: Decoder) { s.started || Decide(s).None? }

  lemma {:induction false} PiecesSettle(s: Decoder, pieces: seq<seq<Byte>>)
    requires Resting(s)
    ensures var (t, items) := FeedAll(s, pieces);
            Resting(t) && Settle(With(s, Concat(pieces))) == (Settle(t).0, items + Settle(t).1)
    decreases |pieces|
  {
    hide Settle, Pause, Decide;
    if pieces == [] {
      assert s.buffer + [] == s.buffer;
      assert [] + Settle(s).1 == Settle(s).1;
    } else {
      var n := |pieces| - 1;
      var data := pieces[n];
      PiecesSettle(s, pieces[..n]);
      var (t, items) := FeedAll(s, pieces[..n]);
      SettleInTwo(With(s, Concat(pieces[..n])), data);
      SettleInTwo(t, data);
      PauseThenSettle(With(t, data));
      assert (s.buffer + Concat(pieces[..n])) + data == s.buffer + Concat(pieces);
      var settled, more := Settle(t).1, Pause(With(t, data)).1;
      var rest := Settle(Pause(With(t, data)).0).1;
      var tail := Settle(With(Settle(t).0, data)).1;
      assert settled + tail == more + rest;
      assert (items + settled) + tail == items + (settled + tail) == items + (more + rest) == (items + more) + rest;
    }
  }

  lemma FlushSettles(s: Decoder, pieces: seq<seq<Byte>>)
    requires Resting(s)
    ensures FeedAll(s, pieces + [[]]) == Settle(With(s, Concat(pieces)))
  {
    hide Settle, Pause, Decide;
    PiecesSettle(s, pieces);
    var t := FeedAll(s, pieces).0;
    assert (pieces + [[]])[..|pieces|] == pieces;
    assert With(t, []) == t;
    StartedSettles(t);
  }

  /** However a stream is cut into pieces, feeding them and then an empty piece gives the same descriptors and samples,
      the same rest in the buffer and the same count of discarded bytes as feeding it whole and then an empty piece. */
  lemma ChunkInvariance(s: Decoder, pieces: seq<seq<Byte>>)
    requires Resting(s)
    ensures FeedAll(s, pieces + [[]]) == FeedAll(s, [Concat(pieces), []])
  {
    hide Settle, Pause, Decide;
    FlushSettles(s, pieces);
    FlushSettles(s, [Concat(pieces)]);
    assert [Concat(pieces)][..0] == [] && [] + Concat(pieces) == Concat(pieces);
    assert [Concat(pieces)] + [[]] == [Concat(pieces), []];
  }

  /** One decision of a feed. */
  lemma PauseOnce(s: Decoder)
    ensures match Decide(s)
            case None => Pause(s) == (s, [])
            case Some((t, items)) =>
              if t.started && !s.started then Pause(s) == (t, items)
              else Pause(s) == (Pause(t).0, items + Pause(t).1) && (items == [] ==> Pause(s) == Pause(t))
  {
    hide Decide;
    if Decide(s).Some? && Decide(s).value.1 == [] {
      DecideShrinks(s);
      assert [] + Pause(Decide(s).value.0).1 == Pause(Decide(s).value.0).1;
    }
  }

  lemma {:induction false} PauseShrinks(s: Decoder)
    ensures |Pause(s).0.buffer| <= |s.buffer|
    decreases |s.buffer|, s.expected.Some?
  {
    hide Decide;
    match Decide(s)
    case None =>
    case Some((t, _)) =>
      DecideShrinks(s);
      if !(t.started && !s.started) {
        PauseShrinks(t);
      }
  }

  /** No whole sample waits in the buffer for the next feed. */
  predicate Drained(s: Decoder) { !s.started || |s.buffer| < PACKET_SIZE }

  lemma DrainedIff(t: Decoder)
    requires Resting(t)
    ensures Drained(t) <==> Decide(t).None?
  {
  }

  lemma SampleShrinks(t: Decoder)
    requires t.started && Decide(t).Some?
    ensures |Decide(t).value.0.buffer| < |t.buffer| && Decide(t).value.0.started
  {
  }

  lemma PauseIdleIff(t: Decoder)
    requires Resting(t)
    ensures Pause(t) == (t, []) <==> Decide(t).None?
    ensures Pause(t).0 == t ==> Decide(t).None?
  {
    hide Decide, Pause;
    PauseOnce(t);
    if Decide(t).Some? {
      SampleShrinks(t);
      PauseShrinks(Decide(t).value.0);
    }
  }

  /** When the empty piece makes no difference: exactly when no whole sample was left waiting. */
  lemma FlushIdleIff(s: Decoder, pieces: seq<seq<Byte>>)
    requires Resting(s)
    ensures FeedAll(s, pieces) == FeedAll(s, [Concat(pieces), []]) <==> Drained(FeedAll(s, pieces).0)
  {
    hide Settle, Pause, Decide;
    PiecesSettle(s, pieces);
    ChunkInvariance(s, pieces);
    var (t, items) := FeedAll(s, pieces);
    assert (pieces + [[]])[..|pieces|] == pieces;
    assert With(t, []) == t;
    DrainedIff(t);
    PauseIdleIff(t);
    assert items + Pause(t).1 == items ==> |Pause(t).1| == 0;
    assert items + [] == items;
  }

  lemma {:induction false} SettledAfterStart(s: Decoder)
    requires s.started
    ensures Pause(s).0.started && |Pause(s).0.buffer| < PACKET_SIZE
    decreases |s.buffer|
  {
    hide Decide;
    if Decide(s).None? {
      DrainedIff(s);
    } else {
      SampleShrinks(s);
      SettledAfterStart(Decide(s).value.0);
    }
  }

  /** Once the start-up is over, no empty piece is needed at all. */
  lemma {:induction false} StartedCuts(s: Decoder, pieces: seq<seq<Byte>>)
    requires s.started && |s.buffer| < PACKET_SIZE
    ensures FeedAll(s, pieces) == FeedOne(s, Concat(pieces)) && FeedAll(s, pieces).0.started
    ensures |FeedAll(s, pieces).0.buffer| < PACKET_SIZE
    decreases |pieces|
  {
    hide Settle, Pause, Decide;
    if pieces == [] {
      assert With(s, []) == s;
      PauseOnce(s);
      assert Decide(s).None? by { DrainedIff(s); }
    } else {
      var n := |pieces| - 1;
      StartedCuts(s, pieces[..n]);
      var t := FeedAll(s, pieces[..n]).0;
      SettledAfterStart(With(t, pieces[n]));
      StartedSettles(With(t, pieces[n]));
      StartedSettles(With(s, Concat(pieces[..n])));
      StartedSettles(With(s, Concat(pieces)));
      SettleInTwo(With(s, Concat(pieces[..n])), pieces[n]);
      assert (s.buffer + Concat(pieces[..n])) + pieces[n] == s.buffer + Concat(pieces);
    }
  }

  lemma OnePiece(s: Decoder, data: seq<Byte>)
    ensures FeedAll(s, [data]) == FeedOne(s, data)
  {
    hide Pause;
    assert [data][..0] == [];
    assert FeedAll(s, []) == (s, []);
    assert [] + FeedOne(s, data).1 == FeedOne(s, data).1;
  }

  lemma SampleDecided(sample: seq<Byte>)
    requires sample == [0, 0, 0, 0, 1, 2]
    ensures |FeedOne(Decoder([], 0, true, 1, None), sample).1| == 1
  {
    var s := Decoder(sample, 0, true, 1, None);
    assert [] + sample == sample && sample[..6] == sample && sample[6..] == [];
    assert Decide(s) == Some((s.(buffer := []), [SampleOf(sample)]));
    assert Decide(s.(buffer := [])) == None;
    PauseOnce(s);
    PauseOnce(s.(buffer := []));
  }

  lemma HeaderDecided(rest: seq<Byte>)
    ensures Pause(With(FRESH, MAGIC + [1, 0, 0, 0, 0] + rest)) ==
              (Decoder(rest, 0, true, 1, None), [Descriptor(0, 0, 0, 0)])
  {
    var s := With(FRESH, MAGIC + [1, 0, 0, 0, 0] + rest);
    var b := s.buffer;
    assert b[..4] == MAGIC && b[4] == 1 && b[5..] == [0, 0, 0, 0] + rest;
    var t := Drop(s, 5).(expected := Some(1));
    assert Decide(s) == Some((t, []));
    assert t.buffer[0..4] == [0, 0, 0, 0] && t.buffer[4..] == rest;
    assert AllPlausible(t.buffer, 1);
    assert Descriptors(t.buffer, 1) == [Descriptor(0, 0, 0, 0)];
    assert Decide(t) == Some((Decoder(rest, 0, true, 1, None), [Descriptor(0, 0, 0, 0)]));
    assert Pause(t) == (Decoder(rest, 0, true, 1, None), [Descriptor(0, 0, 0, 0)]);
    assert [] + [Descriptor(0, 0, 0, 0)] == [Descriptor(0, 0, 0, 0)];
  }

  /** How many bytes of the buffer the start-up takes, if it comes to its end in them. */
  function StartupLength(s: Decoder): (n: Option<nat>)
    requires !s.started
    ensures n.Some? ==> n.value <= |s.buffer|
    decreases |s.buffer|, s.expected.Some?
  {
    match Decide(s)
    case None => None
    case Some((t, _)) =>
      if t.started then Some(|s.buffer| - |t.buffer|)
      else
        match StartupLength(t)
        case None => None
        case Some(n) => Some(|s.buffer| - |t.buffer| + n)
  }

  lemma {:induction false} PauseLength(s: Decoder)
    requires !s.started
    ensures match StartupLength(s)
            case None => !Pause(s).0.started
            case Some(n) => Pause(s).0.started && |Pause(s).0.buffer| == |s.buffer| - n
    decreases |s.buffer|, s.expected.Some?
  {
    hide Decide;
    match Decide(s)
    case None =>
    case Some((t, _)) =>
      DecideShrinks(s);
      if !t.started {
        PauseLength(t);
      }
  }

  /** The piece `data` leaves no whole sample waiting: the start-up was over, is not over yet, or ends in it with fewer
      than six bytes behind. */
  predicate LeavesNone(t: Decoder, data: seq<Byte>) {
    t.started ||
    match StartupLength(With(t, data))
    case None => true
    case Some(n) => |t.buffer| + |data| - n < PACKET_SIZE
  }

  /** The same, told before the last piece is fed. */
  lemma FlushIdleBefore(s: Decoder, pieces: seq<seq<Byte>>, data: seq<Byte>)
    requires Resting(s)
    ensures var all := pieces + [data];
            FeedAll(s, all) == FeedAll(s, [Concat(all), []]) <==> LeavesNone(FeedAll(s, pieces).0, data)
  {
    hide Settle, Pause, Decide, StartupLength;
    var all := pieces + [data];
    FlushIdleIff(s, all);
    assert all[..|pieces|] == pieces;
    var t := FeedAll(s, pieces).0;
    if t.started {
      SettledAfterStart(With(t, data));
    } else {
      PauseLength(With(t, data));
    }
  }

  /** The empty piece is needed: a sample that comes with the start-up header is not seen before the next feed. */
  lemma FlushIsNeeded()
    ensures var header: seq<Byte> := MAGIC + [1, 0, 0, 0, 0];
            var sample: seq<Byte> := [0, 0, 0, 0, 1, 2];
            && |FeedAll(FRESH, [header + sample]).1| == 1 && !Drained(FeedAll(FRESH, [header + sample]).0)
            && |FeedAll(FRESH, [header, sample]).1| == 2
  {
    hide Pause, Decide;
    var header: seq<Byte> := MAGIC + [1, 0, 0, 0, 0];
    var sample: seq<Byte> := [0, 0, 0, 0, 1, 2];
    HeaderDecided(sample);
    HeaderDecided([]);
    assert header + [] == header;
    OnePiece(FRESH, header);
    OnePiece(FRESH, header + sample);
    SampleDecided(sample);
    assert [header, sample][..1] == [header];
  }

  // ---- the decoder itself ----

  predicate MagicAt(b: seq<Byte>, i: nat) { i + 4 <= |b| && b[i..i + 4] == MAGIC }

  /** While no start-up magic begins in the first `k` bytes, the decisions are to discard them one by one. */
  lemma {:induction false} HuntJump(s: Decoder, k: nat)
    requires !s.started && s.expected.None? && k <= |s.buffer| && (k > 0 ==> k + 3 <= |s.buffer|)
    requires forall i :: 0 <= i < k ==> !MagicAt(s.buffer, i)
    ensures Pause(s) == Pause(Discard(s, k))
    decreases k
  {
    hide Pause;
    if k == 0 {
      assert Discard(s, 0) == s;
    } else {
      var t := Discard(s, 1);
      assert !MagicAt(s.buffer, 0);
      assert Decide(s) == Some((t, []));
      PauseOnce(s);
      forall i: nat | i < k - 1
        ensures !MagicAt(t.buffer, i)
      {
        assert !MagicAt(s.buffer, i + 1);
        assert i + 4 <= |t.buffer| ==> t.buffer[i..i + 4] == s.buffer[i + 1..i + 5];
      }
      HuntJump(t, k - 1);
      assert Discard(t, k - 1) == Discard(s, k);
    }
  }

  lemma HeaderRead(s: Decoder)
    requires !s.started && s.expected.None? && |s.buffer| >= 5 && s.buffer[..4] == MAGIC
    ensures var n := s.buffer[4] as nat;
            Pause(s) == Pause(if n == 0 || n > MAX_DESCRIPTORS then Discard(s, 5) else Drop(s, 5).(expected := Some(n)))
  {
    hide Pause;
    PauseOnce(s);
  }

  class PacketDecoder {
    var buffer: seq<Byte>
    var discarded: nat
    var started: bool
    var count: nat
    var expected: Option<nat>

    function View(): Decoder
      reads this
    {
      Decoder(buffer, discarded, started, count, expected)
    }

    constructor ()
      ensures View() == FRESH
    {
      buffer, discarded, started, count, expected := [], 0, false, 0, None;
    }

    /** Ends the start-up by hand: what waited is dropped without being counted, and samples are read from here on,
        however they are cut (`StartedCuts`). */
    method FinishStartup()
      modifies this
      ensures View() == old(View()).(started := true, buffer := []) && Resting(View()) && Drained(View())
      ensures forall pieces: seq<seq<Byte>> :: FeedAll(View(), pieces) == FeedOne(View(), Concat(pieces))
    {
      started, buffer := true, [];
      forall pieces: seq<seq<Byte>>
        ensures FeedAll(View(), pieces) == FeedOne(View(), Concat(pieces))
      {
        StartedCuts(View(), pieces);
      }
    }

    /** The first place the magic begins in the buffer, or the buffer's length. */
    method FindMagic() returns (i: nat)
      ensures i <= |buffer| && (forall j :: 0 <= j < i ==> !MagicAt(buffer, j)) && (i < |buffer| ==> MagicAt(buffer, i))
    {
      i := 0;
      while i < |buffer|
        invariant i <= |buffer| && forall j :: 0 <= j < i ==> !MagicAt(buffer, j)
      {
        if i + 4 <= |buffer| && buffer[i..i + 4] == MAGIC {
          return i;
        }
        i := i + 1;
      }
    }

    /** Looks for a header: false if bytes are missing, or the header's descriptors are expected next. */
    method SeekHeader() returns (found: bool)
      requires !started && expected.None?
      modifies this
      ensures Pause(View()) == Pause(old(View())) && !started && |buffer| <= |old(buffer)|
      ensures if found then expected.Some? && |buffer| < |old(buffer)| else expected.None? && Decide(View()).None?
    {
      hide Pause, AllPlausible, Plausible;
      while expected.None?
        invariant Pause(View()) == Pause(old(View())) && !started && |buffer| <= |old(buffer)|
        invariant expected.Some? ==> |buffer| < |old(buffer)|
        decreases |buffer|, expected.None?
      {
        ghost var was := View();
        var at := FindMagic();
        if at == |buffer| {
          var keep := Min(|buffer|, 3);
          HuntJump(was, |buffer| - keep);
          discarded := discarded + (|buffer| - keep);
          buffer := buffer[|buffer| - keep..];
          assert View() == Discard(was, |was.buffer| - keep);
          return false;
        }
        HuntJump(was, at);
        buffer, discarded := buffer[at..], discarded + at;
        assert View() == Discard(was, at) && buffer[..4] == was.buffer[at..at + 4] == MAGIC;
        if |buffer| < 5 {
          return false;
        }
        ghost var here := View();
        var n := buffer[4] as nat;
        buffer := buffer[4..][1..];
        assert buffer == here.buffer[5..];
        HeaderRead(here);
        if n == 0 || n > MAX_DESCRIPTORS {
          discarded := discarded + 5;
        } else {
          expected := Some(n);
        }
      }
      return true;
    }

    /** The descriptors a header announced: all of them must be plausible. */
    method TakeDescriptors() returns (done: bool, items: seq<Item>)
      requires !started && expected.Some?
      modifies this
      ensures match Decide(old(View()))
              case None => done && items == [] && View() == old(View())
              case Some((t, more)) => items == more && View() == t && done == started && expected.None?
      ensures |buffer| <= |old(buffer)| && (!done ==> items == [])
    {
      hide Plausible, DescriptorOf;
      var n := expected.value;
      if |buffer| < n * DESCRIPTOR_SIZE {
        return true, [];
      }
      var candidates := buffer;
      buffer, expected := buffer[n * DESCRIPTOR_SIZE..], None;
      if !AllPlausible(candidates, n) {
        discarded := discarded + n * DESCRIPTOR_SIZE;
        return false, [];
      }
      count, started := n, true;
      return true, Descriptors(candidates, n);
    }

    method StartUp() returns (items: seq<Item>)
      requires !started
      modifies this
      ensures (View(), items) == Pause(old(View()))
    {
      hide Decide, Pause;
      PauseOnce(View());
      while true
        invariant !started && Pause(View()) == Pause(old(View()))
        decreases |buffer|, expected.Some?
      {
        ghost var was := View();
        if expected.None? {
          var found := SeekHeader();
          PauseOnce(View());
          if !found {
            return [];
          }
        }
        ghost var here := View();
        PauseOnce(here);
        var done;
        done, items := TakeDescriptors();
        if done {
          return items;
        }
      }
    }

    method TakeSamples() returns (items: seq<Item>)
      requires started
      modifies this
      ensures (View(), items) == Pause(old(View()))
    {
      hide Plausible, SampleOf, Pause;
      items := [];
      assert [] + Pause(View()).1 == Pause(View()).1;
      while |buffer| >= PACKET_SIZE
        invariant started && Pause(old(View())) == (Pause(View()).0, items + Pause(View()).1)
        decreases |buffer|
      {
        ghost var was, before := View(), items;
        PauseOnce(was);
        var candidate := buffer[..PACKET_SIZE];
        if !Plausible(candidate) {
          buffer, discarded := buffer[1..], discarded + 1;
          assert Decide(was) == Some((View(), []));
        } else {
          buffer := buffer[PACKET_SIZE..];
          items := items + [SampleOf(candidate)];
          assert Decide(was) == Some((View(), [SampleOf(candidate)]));
          assert before + ([SampleOf(candidate)] + Pause(View()).1) == items + Pause(View()).1;
        }
      }
      PauseOnce(View());
      assert items + [] == items;
    }

    /** Everything the new data allows to decide; what comes with the end of the header waits for the next call. */
    method Feed(data: seq<Byte>) returns (items: seq<Item>)
      modifies this
      ensures (View(), items) == FeedOne(old(View()), data)
    {
      buffer := buffer + data;
      assert View() == With(old(View()), data);
      if started {
        items := TakeSamples();
      } else {
        items := StartUp();
      }
    }
  }
}
