/** The ADC stream as the board sends it, and what the decoder makes of it. */
module AdcStream {
  import opened Bytes
  import opened AdcDecoder

  const MAGIC_AND_COUNT: nat := 5

  /** What four bytes can say and the decoder accepts. */
  predicate Legal(device: nat, channel: nat, resolution: nat, kind: nat) {
    device <= 1 && channel < 32 && resolution <= 1 && kind <= 4
  }

  predicate IsSample(m: Item) {
    m.Sample? && Legal(m.device, m.channel, m.resolution, m.kind) && m.value < 0x1_0000
  }

  predicate IsDescriptor(m: Item) { m.Descriptor? && Legal(m.device, m.channel, m.resolution, m.kind) }

  /** The four bytes that say which measurement it is. */
  function Key(m: Item): (b: seq<Byte>)
    requires Legal(m.device, m.channel, m.resolution, m.kind)
    ensures |b| == DESCRIPTOR_SIZE
  {
    [ByteOf(m.device), ByteOf(m.channel), ByteOf(m.resolution), ByteOf(m.kind)]
  }

  /** A sample on the wire, the high byte of its value first. */
  function SampleBytes(m: Item): (b: seq<Byte>)
    requires IsSample(m)
    ensures |b| == PACKET_SIZE
  {
    Key(m) + [ByteOf(m.value / 256), ByteOf(m.value % 256)]
  }

  function Samples(items: seq<Item>): seq<Byte>
    requires forall i :: 0 <= i < |items| ==> IsSample(items[i])
  {
    if items == [] then [] else SampleBytes(items[0]) + Samples(items[1..])
  }

  function Keys(items: seq<Item>): (b: seq<Byte>)
    requires forall i :: 0 <= i < |items| ==> IsDescriptor(items[i])
    ensures |b| == |items| * DESCRIPTOR_SIZE
  {
    if items == [] then []
    else
      var last := items[|items| - 1];
      assert IsDescriptor(last);
      Keys(items[..|items| - 1]) + Key(last)
  }

  /** The start-up header: the magic, the number of descriptors, and the descriptors. */
  function Header(items: seq<Item>): seq<Byte>
    requires |items| <= MAX_DESCRIPTORS && forall i :: 0 <= i < |items| ==> IsDescriptor(items[i])
  {
    MAGIC + [|items| as Byte] + Keys(items)
  }

  // ---- samples ----

  lemma ByteBack(n: nat)
    requires n < 256
    ensures (n as Byte) as nat == n
  {
    ByteRoundTrip(n);
  }

  lemma KeyReadsBack(m: Item)
    requires Legal(m.device, m.channel, m.resolution, m.kind)
    ensures var b := Key(m);
            && Plausible(b) && Value(b[0]) == m.device && Value(b[1]) == m.channel
            && Value(b[2]) == m.resolution && Value(b[3]) == m.kind
  {
    ByteBack(m.device);
    ByteBack(m.channel);
    ByteBack(m.resolution);
    ByteBack(m.kind);
  }

  lemma SampleReadsBack(m: Item)
    requires IsSample(m)
    ensures Plausible(SampleBytes(m)) && SampleOf(SampleBytes(m)) == m
  {
    KeyReadsBack(m);
    ByteBack(m.value / 256);
    ByteBack(m.value % 256);
  }

  lemma SampleStep(s: Decoder, m: Item, rest: seq<Byte>)
    requires s.started && IsSample(m) && s.buffer == SampleBytes(m) + rest
    ensures Decide(s) == Some((s.(buffer := rest), [m]))
  {
    hide Plausible, SampleOf, SampleBytes;
    SampleReadsBack(m);
    assert s.buffer[..PACKET_SIZE] == SampleBytes(m) && s.buffer[PACKET_SIZE..] == rest;
  }

  lemma {:induction false} SamplesDecoded(s: Decoder, items: seq<Item>, rest: seq<Byte>)
    requires s.started && (forall i :: 0 <= i < |items| ==> IsSample(items[i])) && |rest| < PACKET_SIZE
    requires s.buffer == Samples(items) + rest
    ensures Pause(s) == (s.(buffer := rest), items)
    decreases |items|
  {
    hide Pause, Decide, SampleBytes, IsSample;
    PauseOnce(s);
    if items == [] {
      assert s.buffer == rest && s.(buffer := rest) == s;
      assert Decide(s).None? by { DrainedIff(s); }
    } else {
      var more := Samples(items[1..]) + rest;
      assert s.buffer == SampleBytes(items[0]) + more;
      SampleStep(s, items[0], more);
      SamplesDecoded(s.(buffer := more), items[1..], rest);
      assert [items[0]] + items[1..] == items;
    }
  }

  /** No six bytes that begin in the junk look like a sample. */
  ghost predicate NoSampleIn(junk: seq<Byte>, rest: seq<Byte>) {
    && (junk != [] ==> |rest| >= PACKET_SIZE)
    && forall k :: 0 <= k < |junk| ==> !Plausible((junk + rest)[k..])
  }

  lemma {:induction false} JunkSkipped(s: Decoder, junk: seq<Byte>, rest: seq<Byte>)
    requires s.started && s.buffer == junk + rest && NoSampleIn(junk, rest)
    ensures Pause(s) == Pause(s.(buffer := rest, discarded := s.discarded + |junk|))
    decreases |junk|
  {
    hide Pause;
    if junk == [] {
      assert s.buffer == rest;
    } else {
      var t := Discard(s, 1);
      assert (junk + rest)[0..] == s.buffer;
      assert Decide(s) == Some((t, []));
      PauseOnce(s);
      assert t.buffer == junk[1..] + rest;
      forall k | 0 <= k < |junk[1..]|
        ensures !Plausible((junk[1..] + rest)[k..])
      {
        assert (junk[1..] + rest)[k..] == (junk + rest)[k + 1..];
      }
      JunkSkipped(t, junk[1..], rest);
    }
  }

  lemma StreamDecoded(s: Decoder, junk: seq<Byte>, items: seq<Item>)
    requires s.started && forall i :: 0 <= i < |items| ==> IsSample(items[i])
    requires s.buffer == junk + Samples(items) && NoSampleIn(junk, Samples(items))
    ensures Pause(s) == (s.(buffer := [], discarded := s.discarded + |junk|), items)
  {
    hide Pause, IsSample, NoSampleIn, Samples;
    var data := Samples(items);
    JunkSkipped(s, junk, data);
    var t := s.(buffer := data, discarded := s.discarded + |junk|);
    assert data + [] == data;
    SamplesDecoded(t, items, []);
  }

  /** A decoder past its start-up, with nothing in its buffer, reads exactly the samples sent, in order, however their
      bytes are cut into pieces, and discards exactly the junk before them. */
  lemma SamplesArrive(s: Decoder, junk: seq<Byte>, items: seq<Item>, pieces: seq<seq<Byte>>)
    requires s.started && s.buffer == [] && forall i :: 0 <= i < |items| ==> IsSample(items[i])
    requires NoSampleIn(junk, Samples(items)) && Concat(pieces) == junk + Samples(items)
    ensures FeedAll(s, pieces) == (s.(discarded := s.discarded + |junk|), items)
  {
    hide Pause, IsSample, NoSampleIn, Samples;
    StartedCuts(s, pieces);
    assert [] + Concat(pieces) == Concat(pieces);
    StreamDecoded(With(s, Concat(pieces)), junk, items);
  }

  // ---- the start-up ----

  /** The magic begins nowhere in `noise`. */
  ghost predicate NoMagicIn(noise: seq<Byte>) { forall i: nat :: i < |noise| ==> !MagicAt(noise, i) }

  /** The magic does not end where another begins, so it does not begin in the noise before it either. */
  lemma NoiseEnds(noise: seq<Byte>, rest: seq<Byte>)
    requires NoMagicIn(noise)
    ensures forall i: nat :: i < |noise| ==> !MagicAt(noise + (MAGIC + rest), i)
  {
    var b := noise + (MAGIC + rest);
    forall i: nat | i < |noise|
      ensures !MagicAt(b, i)
    {
      if i + 4 <= |noise| {
        assert b[i..i + 4] == noise[i..i + 4];
        assert !MagicAt(noise, i);
      } else if i + 4 <= |b| {
        assert b[|noise|] == MAGIC[0] && MAGIC[|noise| - i] != MAGIC[0];
        assert b[i..i + 4][|noise| - i] == b[|noise|];
      }
    }
  }

  /** Up to the magic and the count behind it. */
  lemma HeaderFound(s: Decoder, noise: seq<Byte>, n: nat, rest: seq<Byte>)
    requires !s.started && s.expected.None? && NoMagicIn(noise) && n < 256
    requires s.buffer == noise + (MAGIC + ([n as Byte] + rest))
    ensures Pause(s) ==
              if n == 0 || n > MAX_DESCRIPTORS then
                Pause(s.(buffer := rest, discarded := s.discarded + |noise| + MAGIC_AND_COUNT))
              else Pause(s.(buffer := rest, discarded := s.discarded + |noise|, expected := Some(n)))
  {
    hide Pause;
    NoiseEnds(noise, [n as Byte] + rest);
    HuntJump(s, |noise|);
    var t := Discard(s, |noise|);
    assert t.buffer == MAGIC + ([n as Byte] + rest);
    assert t.buffer[..4] == MAGIC && t.buffer[4] == n as Byte && t.buffer[5..] == rest;
    ByteBack(n);
    HeaderRead(t);
  }

  lemma CandidateOf(a: seq<Byte>, b: seq<Byte>, i: nat)
    ensures (i + 1) * DESCRIPTOR_SIZE <= |a| ==> Candidate(a + b, i) == Candidate(a, i)
    ensures |a| == i * DESCRIPTOR_SIZE && |b| == DESCRIPTOR_SIZE ==> Candidate(a + b, i) == b
  {
  }

  lemma {:induction false} KeyAt(items: seq<Item>, i: nat)
    requires i < |items| && forall j :: 0 <= j < |items| ==> IsDescriptor(items[j])
    ensures Candidate(Keys(items), i) == Key(items[i])
    decreases |items|
  {
    hide Key, Candidate;
    var n := |items| - 1;
    assert IsDescriptor(items[n]);
    CandidateOf(Keys(items[..n]), Key(items[n]), i);
    if i < n {
      KeyAt(items[..n], i);
    }
  }

  lemma KeysReadBack(items: seq<Item>, rest: seq<Byte>)
    requires forall j :: 0 <= j < |items| ==> IsDescriptor(items[j])
    ensures var b := Keys(items) + rest;
            AllPlausible(b, |items|) && Descriptors(b, |items|) == items && b[|items| * DESCRIPTOR_SIZE..] == rest
  {
    hide Keys, Key, Plausible;
    var b := Keys(items) + rest;
    forall i: nat | i < |items|
      ensures Plausible(Candidate(b, i)) && DescriptorOf(Candidate(b, i)) == items[i]
    {
      KeyAt(items, i);
      assert Candidate(b, i) == Candidate(Keys(items), i);
      assert IsDescriptor(items[i]);
      KeyReadsBack(items[i]);
    }
  }

  /** The header of the board, behind noise: the descriptors are those sent. */
  lemma HeaderDecoded(s: Decoder, noise: seq<Byte>, items: seq<Item>, rest: seq<Byte>)
    requires !s.started && s.expected.None? && NoMagicIn(noise)
    requires 0 < |items| <= MAX_DESCRIPTORS && forall i :: 0 <= i < |items| ==> IsDescriptor(items[i])
    requires s.buffer == noise + Header(items) + rest
    ensures Pause(s) == (Decoder(rest, s.discarded + |noise|, true, |items|, None), items)
  {
    hide Pause, Keys, IsDescriptor, NoMagicIn, AllPlausible, Descriptors;
    var n := |items|;
    var b := Keys(items) + rest;
    assert s.buffer == noise + (MAGIC + ([n as Byte] + b));
    HeaderFound(s, noise, n, b);
    var t := s.(buffer := b, discarded := s.discarded + |noise|, expected := Some(n));
    KeysReadBack(items, rest);
    PauseOnce(t);
  }

  // ---- headers that were damaged ----

  /** Noise, a magic, a count, and as many descriptors. */
  datatype Damaged = Damaged(noise: seq<Byte>, count: nat, body: seq<Byte>)

  /** The count is out of range, or one of the descriptors is not a legal one. */
  ghost predicate IsDamaged(x: Damaged) {
    && NoMagicIn(x.noise) && x.count < 256
    && if 0 < x.count <= MAX_DESCRIPTORS then
         |x.body| == x.count * DESCRIPTOR_SIZE && !AllPlausible(x.body, x.count)
       else x.body == []
  }

  function DamagedBytes(x: Damaged): seq<Byte> { x.noise + (MAGIC + ([(x.count % 256) as Byte] + x.body)) }

  /** What the decoder counts as discarded: the magic and the count only if the count is at fault. */
  function DamagedCost(x: Damaged): nat {
    |x.noise| + if 0 < x.count <= MAX_DESCRIPTORS then |x.body| else MAGIC_AND_COUNT
  }

  /** Descriptors of which one is not legal are dropped all together. */
  lemma BodyDropped(t: Decoder, body: seq<Byte>, rest: seq<Byte>)
    requires !t.started && t.expected.Some? && t.buffer == body + rest
    requires |body| == t.expected.value * DESCRIPTOR_SIZE && !AllPlausible(body, t.expected.value)
    ensures Pause(t) == Pause(t.(buffer := rest, discarded := t.discarded + |body|, expected := None))
  {
    hide Pause, AllPlausible, Descriptors;
    SameCandidates(body, rest, t.expected.value);
    assert t.buffer[|body|..] == rest;
    PauseOnce(t);
  }

  lemma DamagedSkipped(s: Decoder, x: Damaged, rest: seq<Byte>)
    requires !s.started && s.expected.None? && IsDamaged(x) && s.buffer == DamagedBytes(x) + rest
    ensures Pause(s) == Pause(s.(buffer := rest, discarded := s.discarded + DamagedCost(x)))
  {
    hide Pause, NoMagicIn, AllPlausible;
    var b := x.body + rest;
    assert s.buffer == x.noise + (MAGIC + ([x.count as Byte] + b));
    HeaderFound(s, x.noise, x.count, b);
    if 0 < x.count <= MAX_DESCRIPTORS {
      BodyDropped(s.(buffer := b, discarded := s.discarded + |x.noise|, expected := Some(x.count)), x.body, rest);
    } else {
      assert b == rest;
    }
  }

  function AllDamaged(xs: seq<Damaged>): seq<Byte> {
    if xs == [] then [] else DamagedBytes(xs[0]) + AllDamaged(xs[1..])
  }

  function AllCosts(xs: seq<Damaged>): nat { if xs == [] then 0 else DamagedCost(xs[0]) + AllCosts(xs[1..]) }

  lemma {:induction false} AllSkipped(s: Decoder, xs: seq<Damaged>, rest: seq<Byte>)
    requires !s.started && s.expected.None? && forall i :: 0 <= i < |xs| ==> IsDamaged(xs[i])
    requires s.buffer == AllDamaged(xs) + rest
    ensures Pause(s) == Pause(s.(buffer := rest, discarded := s.discarded + AllCosts(xs)))
    decreases |xs|
  {
    hide Pause, DamagedBytes, DamagedCost;
    if xs == [] {
      assert s.buffer == rest;
    } else {
      var more := AllDamaged(xs[1..]) + rest;
      assert s.buffer == DamagedBytes(xs[0]) + more;
      DamagedSkipped(s, xs[0], more);
      AllSkipped(s.(buffer := more, discarded := s.discarded + DamagedCost(xs[0])), xs[1..], rest);
    }
  }

  /** From the start: damaged headers and noise are skipped, and the first sound header gives exactly its descriptors;
      what follows it stays in the buffer. */
  lemma StartupReads(xs: seq<Damaged>, noise: seq<Byte>, items: seq<Item>, rest: seq<Byte>)
    requires (forall i :: 0 <= i < |xs| ==> IsDamaged(xs[i])) && NoMagicIn(noise)
    requires 0 < |items| <= MAX_DESCRIPTORS && forall i :: 0 <= i < |items| ==> IsDescriptor(items[i])
    ensures FeedOne(FRESH, AllDamaged(xs) + (noise + Header(items) + rest)) ==
              (Decoder(rest, AllCosts(xs) + |noise|, true, |items|, None), items)
  {
    hide Pause, AllDamaged, AllCosts, Header, IsDescriptor, NoMagicIn;
    var sound := noise + Header(items) + rest;
    var data := AllDamaged(xs) + sound;
    assert [] + data == data;
    AllSkipped(With(FRESH, data), xs, sound);
    HeaderDecoded(FRESH.(buffer := sound, discarded := AllCosts(xs)), noise, items, rest);
  }

  lemma FeedThenNothing(s: Decoder, data: seq<Byte>, t: Decoder)
    requires FeedOne(s, data).0 == t
    ensures FeedAll(s, [data, []]) == (Pause(t).0, FeedOne(s, data).1 + Pause(t).1)
  {
    hide Pause;
    OnePiece(s, data);
    assert [data, []][..1] == [data];
    assert With(t, []) == t;
  }

  lemma FreshRests()
    ensures Resting(FRESH)
  {
  }

  lemma SessionFed(xs: seq<Damaged>, noise: seq<Byte>, keys: seq<Item>, junk: seq<Byte>, items: seq<Item>)
    requires (forall i :: 0 <= i < |xs| ==> IsDamaged(xs[i])) && NoMagicIn(noise)
    requires 0 < |keys| <= MAX_DESCRIPTORS && forall i :: 0 <= i < |keys| ==> IsDescriptor(keys[i])
    requires (forall i :: 0 <= i < |items| ==> IsSample(items[i])) && NoSampleIn(junk, Samples(items))
    ensures FeedAll(FRESH, [AllDamaged(xs) + (noise + Header(keys) + (junk + Samples(items))), []]) ==
              (Decoder([], AllCosts(xs) + |noise| + |junk|, true, |keys|, None), keys + items)
  {
    hide *;
    var data := AllDamaged(xs) + (noise + Header(keys) + (junk + Samples(items)));
    StartupReads(xs, noise, keys, junk + Samples(items));
    var t := Decoder(junk + Samples(items), AllCosts(xs) + |noise|, true, |keys|, None);
    StreamDecoded(t, junk, items);
    FeedThenNothing(FRESH, data, t);
  }

  /** A whole session, however its bytes are cut into pieces: the descriptors and the samples sent, in order, and
      nothing else; what is discarded is what was damaged or noise. */
  lemma SessionReads(
    xs: seq<Damaged>, noise: seq<Byte>, keys: seq<Item>, junk: seq<Byte>, items: seq<Item>, pieces: seq<seq<Byte>>)
    requires (forall i :: 0 <= i < |xs| ==> IsDamaged(xs[i])) && NoMagicIn(noise)
    requires 0 < |keys| <= MAX_DESCRIPTORS && forall i :: 0 <= i < |keys| ==> IsDescriptor(keys[i])
    requires (forall i :: 0 <= i < |items| ==> IsSample(items[i])) && NoSampleIn(junk, Samples(items))
    requires Concat(pieces) == AllDamaged(xs) + (noise + Header(keys) + (junk + Samples(items)))
    ensures FeedAll(FRESH, pieces + [[]]) ==
              (Decoder([], AllCosts(xs) + |noise| + |junk|, true, |keys|, None), keys + items)
  {
    hide *;
    FreshRests();
    ChunkInvariance(FRESH, pieces);
    SessionFed(xs, noise, keys, junk, items);
  }

  // ---- nothing else is ever read ----

  lemma ByteValue(b: Byte)
    ensures ByteOf(Value(b)) == b
  {
    ByteRoundTripBack(b);
  }

  /** Four bytes, put back. */
  lemma KeyBack(m: Item, c: seq<Byte>)
    requires |c| == DESCRIPTOR_SIZE && Legal(m.device, m.channel, m.resolution, m.kind)
    requires ByteOf(m.device) == c[0] && ByteOf(m.channel) == c[1]
    requires ByteOf(m.resolution) == c[2] && ByteOf(m.kind) == c[3]
    ensures Key(m) == c
  {
  }

  /** Four bytes that pass are those of a legal measurement, and of no other. */
  lemma PlausibleIsLegal(c: seq<Byte>)
    requires |c| >= DESCRIPTOR_SIZE
    ensures Plausible(c) <==> Legal(Value(c[0]), Value(c[1]), Value(c[2]), Value(c[3]))
    ensures Plausible(c) ==> IsDescriptor(DescriptorOf(c)) && Key(DescriptorOf(c)) == c[..DESCRIPTOR_SIZE]
  {
    hide Key, Value, ByteOf;
    if Plausible(c) {
      ByteValue(c[0]);
      ByteValue(c[1]);
      ByteValue(c[2]);
      ByteValue(c[3]);
      KeyBack(DescriptorOf(c), c[..DESCRIPTOR_SIZE]);
    }
  }

  lemma Digits(high: nat, low: nat)
    requires high < 256 && low < 256
    ensures var n := high * 256 + low;
            n < 0x1_0000 && n / 256 == high && n % 256 == low
  {
  }

  lemma SameKey(a: Item, b: Item)
    requires Legal(a.device, a.channel, a.resolution, a.kind)
    requires a.device == b.device && a.channel == b.channel && a.resolution == b.resolution && a.kind == b.kind
    ensures Key(a) == Key(b)
  {
  }

  lemma SampleEndsWith(m: Item, high: Byte, low: Byte)
    requires m.Sample? && Legal(m.device, m.channel, m.resolution, m.kind)
    requires m.value == Value(high) * 256 + Value(low)
    ensures IsSample(m) && SampleBytes(m) == Key(m) + [high, low]
  {
    hide Key, Legal, ByteOf, Value;
    ByteValue(high);
    ByteValue(low);
    Digits(Value(high), Value(low));
  }

  lemma SampleFields(c: seq<Byte>)
    requires |c| == PACKET_SIZE
    ensures var m, d := SampleOf(c), DescriptorOf(c);
            && m.Sample? && m.value == Value(c[4]) * 256 + Value(c[5])
            && m.device == d.device && m.channel == d.channel && m.resolution == d.resolution && m.kind == d.kind
  {
  }

  /** Whatever is read as a sample is a legal one, and these six bytes are how it is sent. */
  lemma SampleIsLegal(c: seq<Byte>)
    requires |c| == PACKET_SIZE && Plausible(c)
    ensures IsSample(SampleOf(c)) && SampleBytes(SampleOf(c)) == c
  {
    hide Plausible, Key, SampleBytes, Legal, IsSample, Value, SampleOf, DescriptorOf;
    PlausibleIsLegal(c);
    SampleFields(c);
    SampleEndsWith(SampleOf(c), c[4], c[5]);
    SameKey(SampleOf(c), DescriptorOf(c));
    assert c == c[..DESCRIPTOR_SIZE] + [c[4], c[5]];
  }

  ghost predicate AllLegal(items: seq<Item>) {
    forall i :: 0 <= i < |items| ==> IsSample(items[i]) || IsDescriptor(items[i])
  }

  lemma DecidedIsLegal(s: Decoder)
    ensures Decide(s).Some? ==> AllLegal(Decide(s).value.1)
  {
    hide Plausible, SampleOf, DescriptorOf, IsSample, IsDescriptor;
    if s.started {
      if |s.buffer| >= PACKET_SIZE && Plausible(s.buffer[..PACKET_SIZE]) {
        SampleIsLegal(s.buffer[..PACKET_SIZE]);
      }
    } else if s.expected.Some? && |s.buffer| >= s.expected.value * DESCRIPTOR_SIZE {
      forall i: nat | i < s.expected.value && AllPlausible(s.buffer, s.expected.value)
        ensures IsDescriptor(DescriptorOf(Candidate(s.buffer, i)))
      {
        PlausibleIsLegal(Candidate(s.buffer, i));
      }
    }
  }

  lemma {:induction false} PausedIsLegal(s: Decoder)
    ensures AllLegal(Pause(s).1)
    decreases |s.buffer|, s.expected.Some?
  {
    hide Decide, IsSample, IsDescriptor;
    PauseOnce(s);
    match Decide(s)
    case None =>
    case Some((t, items)) =>
      DecidedIsLegal(s);
      DecideShrinks(s);
      PausedIsLegal(t);
  }

  /** Whatever bytes a decoder is fed, in whatever pieces: all it ever reads are legal descriptors and samples. */
  lemma {:induction false} OnlyLegalRead(s: Decoder, pieces: seq<seq<Byte>>)
    ensures AllLegal(FeedAll(s, pieces).1)
    decreases |pieces|
  {
    hide Pause, IsSample, IsDescriptor;
    if pieces == [] {
    } else {
      var n := |pieces| - 1;
      OnlyLegalRead(s, pieces[..n]);
      PausedIsLegal(With(FeedAll(s, pieces[..n]).0, pieces[n]));
    }
  }
}
