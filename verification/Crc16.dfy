/** CRC-16 with polynomial 0x1021 and initial value 0xFFFF: the checksum of firmware images,
    bulk files, bulk frames and UART frames. */
module Crc16 {
  import opened Bytes
  import opened Register16

  const INIT: Crc := 0xFFFF

  /** A data byte, aligned with the top of the register. */
  function Top(b: Byte): Crc { (b as Crc) << 8 }

  /** `n` turns of the inner loop. */
  function Steps(c: Crc, n: nat): Crc { if n == 0 then c else BitStep(Steps(c, n - 1)) }

  function UpdateByte(c: Crc, b: Byte): Crc {
    Steps(Xor(c, Top(b)), 8)
  }

  /** The register after folding in `data` from the left. */
  function Update(c: Crc, data: seq<Byte>): Crc {
    if data == [] then c else UpdateByte(Update(c, data[..|data| - 1]), data[|data| - 1])
  }

  function Of(data: seq<Byte>): Crc { Update(INIT, data) }

  lemma {:induction false} UpdateConcat(c: Crc, x: seq<Byte>, y: seq<Byte>)
    ensures Update(c, x + y) == Update(Update(c, x), y)
  {
    hide UpdateByte;
    if y == [] {
      assert x + y == x;
    } else {
      var n := |y| - 1;
      assert (x + y)[..|x + y| - 1] == x + y[..n];
      UpdateConcat(c, x, y[..n]);
    }
  }

  lemma UpdateSnoc(c: Crc, x: seq<Byte>, b: Byte)
    ensures Update(c, x + [b]) == UpdateByte(Update(c, x), b)
  {
    hide UpdateByte;
    assert (x + [b])[..|x|] == x;
  }

  // ---- bytes inside the register ----

  lemma LowByteShifts(b: Byte)
    ensures BitStep(BitStep(BitStep(BitStep(BitStep(BitStep(BitStep(BitStep(b as Crc)))))))) == Top(b)
  {
  }

  // ---- the same facts for whole bytes and messages ----

  lemma {:induction false} StepsLinear(c: Crc, d: Crc, n: nat)
    ensures Steps(Xor(c, d), n) == Xor(Steps(c, n), Steps(d, n))
  {
    hide BitStep, Xor;
    if n == 0 {
    } else {
      StepsLinear(c, d, n - 1);
      BitStepLinear(Steps(c, n - 1), Steps(d, n - 1));
    }
  }

  lemma {:induction false} StepsKernel(c: Crc, n: nat)
    requires Steps(c, n) == 0
    ensures c == 0
  {
    hide BitStep;
    if n == 0 {
    } else {
      BitStepKernel(Steps(c, n - 1));
      StepsKernel(c, n - 1);
    }
  }

  /** The bit loop is injective, hence a bijection on the 65536 register values. */
  lemma StepsInjective(c: Crc, d: Crc, n: nat)
    requires Steps(c, n) == Steps(d, n)
    ensures c == d
  {
    hide *;
    StepsLinear(c, d, n);
    XorZero(Steps(c, n), Steps(d, n));
    StepsKernel(Xor(c, d), n);
    XorZero(c, d);
  }

  lemma UpdateByteInjective(c: Crc, d: Crc, b: Byte)
    requires UpdateByte(c, b) == UpdateByte(d, b)
    ensures c == d
  {
    hide Steps, Xor, Top;
    StepsInjective(Xor(c, Top(b)), Xor(d, Top(b)), 8);
    XorZero(Xor(c, Top(b)), Xor(d, Top(b)));
    XorCommonRight(c, d, Top(b));
    XorZero(c, d);
  }

  /** Registers that differ still differ after any common suffix. */
  lemma {:induction false} DifferencePersists(c: Crc, d: Crc, data: seq<Byte>)
    requires c != d
    ensures Update(c, data) != Update(d, data)
  {
    hide UpdateByte;
    if data == [] {
    } else {
      var n := |data| - 1;
      DifferencePersists(c, d, data[..n]);
      if Update(c, data) == Update(d, data) {
        UpdateByteInjective(Update(c, data[..n]), Update(d, data[..n]), data[n]);
      }
    }
  }

  lemma EightSteps(b: Byte)
    ensures Steps(b as Crc, 8) == Top(b)
  {
    hide BitStep, Top;
    LowByteShifts(b);
    var c := b as Crc;
    assert Steps(c, 1) == BitStep(Steps(c, 0));
    assert Steps(c, 2) == BitStep(BitStep(c));
    assert Steps(c, 4) == BitStep(BitStep(Steps(c, 2)));
    assert Steps(c, 6) == BitStep(BitStep(Steps(c, 4)));
    assert Steps(c, 8) == BitStep(BitStep(Steps(c, 6)));
  }

  /** Two bytes are folded in as one 16-bit word. */
  lemma UpdatePair(c: Crc, a: Byte, b: Byte)
    ensures UpdateByte(UpdateByte(c, a), b) == Steps(Steps(Xor(c, Xor(Top(a), b as Crc)), 8), 8)
  {
    hide Steps, Xor, Top;
    EightSteps(b);
    StepsLinear(Xor(c, Top(a)), b as Crc, 8);
    XorAssoc(c, Top(a), b as Crc);
  }

  lemma WordInjective(a: Byte, b: Byte, a': Byte, b': Byte)
    requires Xor(Top(a), b as Crc) == Xor(Top(a'), b' as Crc)
    ensures a == a' && b == b'
  {
  }

  lemma PairInjective(c: Crc, a: Byte, b: Byte, a': Byte, b': Byte)
    requires UpdateByte(UpdateByte(c, a), b) == UpdateByte(UpdateByte(c, a'), b')
    ensures a == a' && b == b'
  {
    hide *;
    UpdatePair(c, a, b);
    UpdatePair(c, a', b');
    var w, w' := Xor(Top(a), b as Crc), Xor(Top(a'), b' as Crc);
    StepsInjective(Steps(Xor(c, w), 8), Steps(Xor(c, w'), 8), 8);
    StepsInjective(Xor(c, w), Xor(c, w'), 8);
    XorZero(Xor(c, w), Xor(c, w'));
    XorCommonLeft(c, w, w');
    XorZero(w, w');
    WordInjective(a, b, a', b');
  }

  lemma UpdateTwo(c: Crc, x: seq<Byte>, a: Byte, b: Byte)
    ensures Update(c, x + [a, b]) == UpdateByte(UpdateByte(Update(c, x), a), b)
  {
    hide UpdateByte, Update;
    UpdateSnoc(c, x, a);
    UpdateSnoc(c, x + [a], b);
    assert x + [a] + [b] == x + [a, b];
  }

  /** Any change confined to two neighbouring bytes of a message changes its checksum. */
  lemma PairErrorDetected(c: Crc, x: seq<Byte>, a: Byte, b: Byte, a': Byte, b': Byte, y: seq<Byte>)
    requires a != a' || b != b'
    ensures Update(c, x + [a, b] + y) != Update(c, x + [a', b'] + y)
  {
    hide UpdateByte, Update;
    var s := Update(c, x);
    UpdateTwo(c, x, a, b);
    UpdateTwo(c, x, a', b');
    UpdateConcat(c, x + [a, b], y);
    UpdateConcat(c, x + [a', b'], y);
    if Update(c, x + [a, b]) == Update(c, x + [a', b']) {
      PairInjective(s, a, b, a', b');
    }
    DifferencePersists(Update(c, x + [a, b]), Update(c, x + [a', b']), y);
  }

  /** A change of one byte anywhere in a message changes its checksum. */
  lemma ByteErrorDetected(c: Crc, x: seq<Byte>, a: Byte, a': Byte, y: seq<Byte>)
    requires a != a'
    ensures Update(c, x + [a] + y) != Update(c, x + [a'] + y)
  {
    hide UpdateByte, Update;
    UpdateSnoc(c, x, a);
    UpdateSnoc(c, x, a');
    var s := Update(c, x);
    UpdateConcat(c, x + [a], y);
    UpdateConcat(c, x + [a'], y);
    if UpdateByte(s, a) == UpdateByte(s, a') {
      PairInjective(s, a, 0, a', 0);
    }
    DifferencePersists(Update(c, x + [a]), Update(c, x + [a']), y);
  }

  lemma UpdateNil(c: Crc)
    ensures Update(c, []) == c
  {
  }

  method TurnOnce(crc: Crc) returns (c: Crc)
    ensures c == BitStep(crc)
  {
    if crc & 0x8000 != 0 {
      c := (crc << 1) ^ POLYNOMIAL;
    } else {
      c := crc << 1;
    }
  }

  method MoveUp(b: Byte) returns (c: Crc)
    ensures c == Top(b)
  {
    c := (b as Crc) << 8;
  }

  method FoldIn(crc: Crc, b: Byte) returns (c: Crc)
    ensures c == Xor(crc, Top(b))
  {
    hide Top;
    var top := MoveUp(b);
    c := crc ^ top;
  }

  method ByteLoop(crc: Crc, b: Byte) returns (c: Crc)
    ensures c == UpdateByte(crc, b)
  {
    hide BitStep, Xor, Top;
    c := FoldIn(crc, b);
    ghost var start := c;
    for turn := 0 to 8
      invariant c == Steps(start, turn)
    {
      c := TurnOnce(c);
    }
  }

  /** The accumulator loop of the firmware: one pass over the bytes, eight turns per byte. */
  method UpdateLoop(crc: Crc, data: seq<Byte>) returns (c: Crc)
    ensures c == Update(crc, data)
  {
    hide Update;
    c := crc;
    UpdateNil(crc);
    for i := 0 to |data|
      invariant c == Update(crc, data[..i])
    {
      UpdateSnoc(crc, data[..i], data[i]);
      assert data[..i] + [data[i]] == data[..i + 1];
      c := ByteLoop(c, data[i]);
    }
    assert data[..|data|] == data;
  }
}
