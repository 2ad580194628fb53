/** What the checksum is: the remainder of a polynomial over the two-element field by x^16 + x^12 + x^5 + 1. */
module CrcRemainder {
  import opened Bytes
  import opened Register16
  import Crc16

  /** A polynomial, by the exponents of its terms. */
  type Poly = set<nat>

  const GENERATOR: Poly := {16, 12, 5, 0}

  /** Coefficients are added modulo 2: terms that occur twice cancel. */
  function Add(a: Poly, b: Poly): (p: Poly)
    ensures forall e :: e in p <==> (e in a) != (e in b)
  {
    (a - b) + (b - a)
  }

  function TimesX(a: Poly): (p: Poly)
    ensures forall e: nat :: e in p <==> e > 0 && e - 1 in a
  {
    set e | e in a :: e + 1
  }

  function Shifted(a: Poly, n: nat): Poly { if n == 0 then a else TimesX(Shifted(a, n - 1)) }

  /** The product of the generator with the polynomial whose coefficients are `q`, the highest first. */
  function Multiple(q: seq<bool>): Poly {
    if q == [] then {}
    else Add(TimesX(Multiple(q[..|q| - 1])), if q[|q| - 1] then GENERATOR else {})
  }

  predicate Meets(c: Crc, m: Crc) { c & m != 0 }

  const MASKS: seq<Crc> :=
    [0x1, 0x2, 0x4, 0x8, 0x10, 0x20, 0x40, 0x80, 0x100, 0x200, 0x400, 0x800, 0x1000, 0x2000, 0x4000, 0x8000]

  /** The coefficient of x^e in a register. */
  predicate Bit(c: Crc, e: nat) { e < 16 && Meets(c, MASKS[e]) }

  /** The register as a polynomial. */
  function Content(c: Crc): (p: Poly)
    ensures forall e :: e in p <==> Bit(c, e)
  {
    set e | 0 <= e < 16 && Bit(c, e)
  }

  function BytePoly(b: Byte): Poly { Content(b as Crc) }

  /** A message as a polynomial, its first bit the highest coefficient. */
  function Message(data: seq<Byte>): Poly {
    if data == [] then {} else Add(Shifted(Message(data[..|data| - 1]), 8), BytePoly(data[|data| - 1]))
  }

  // ---- one turn of the register ----

  predicate OneBit(m: Crc) { m != 0 && m & (m - 1) == 0 }

  lemma MaskOne(e: nat)
    requires e < 16
    ensures OneBit(MASKS[e]) && (e < 15 ==> Shift(MASKS[e]) == MASKS[e + 1] && MASKS[e] & 0x8000 == 0)
  {
    if e < 8 {
    } else {
    }
  }

  lemma MaskedXor(c: Crc, d: Crc, m: Crc)
    ensures Xor(c, d) & m == Xor(c & m, d & m)
  {
  }

  lemma MaskedOne(c: Crc, m: Crc)
    requires OneBit(m)
    ensures c & m == 0 || c & m == m
  {
  }

  lemma MeetsXor(c: Crc, d: Crc, m: Crc)
    requires OneBit(m)
    ensures Meets(Xor(c, d), m) <==> Meets(c, m) != Meets(d, m)
  {
    hide Xor;
    MaskedXor(c, d, m);
    MaskedOne(c, m);
    MaskedOne(d, m);
    XorZero(c & m, d & m);
  }

  lemma MeetsShift(c: Crc, m: Crc)
    ensures m & 0x8000 == 0 ==> (Meets(Shift(c), Shift(m)) <==> Meets(c, m))
    ensures !Meets(Shift(c), 0x1)
  {
  }

  lemma BitXor(c: Crc, d: Crc, e: nat)
    ensures Bit(Xor(c, d), e) <==> Bit(c, e) != Bit(d, e)
  {
    hide Xor, Meets, OneBit;
    if e < 16 {
      MaskOne(e);
      MeetsXor(c, d, MASKS[e]);
    }
  }

  lemma BitShift(c: Crc, e: nat)
    ensures Bit(Shift(c), e) <==> 0 < e < 16 && Bit(c, e - 1)
  {
    hide Meets, Shift, OneBit;
    if e == 0 {
      MeetsShift(c, 0x1);
    } else if e < 16 {
      MaskOne(e - 1);
      MeetsShift(c, MASKS[e - 1]);
    }
  }

  lemma PolynomialBits(e: nat)
    ensures Bit(POLYNOMIAL, e) <==> e in GENERATOR && e < 16
    ensures forall c: Crc :: TopBit(c) <==> Bit(c, 15)
  {
  }

  lemma ContentXor(c: Crc, d: Crc)
    ensures Content(Xor(c, d)) == Add(Content(c), Content(d))
  {
    hide Bit, Xor;
    forall e: nat
      ensures Bit(Xor(c, d), e) <==> Bit(c, e) != Bit(d, e)
    {
      BitXor(c, d, e);
    }
  }

  lemma NoHighBits(c: Crc)
    ensures forall e: nat :: Bit(c, e) ==> e < 16
  {
  }

  /** A turn multiplies by x, and takes away the generator when the product has degree 16. */
  lemma TurnDivides(c: Crc)
    ensures Content(BitStep(c)) == Add(TimesX(Content(c)), if TopBit(c) then GENERATOR else {})
  {
    hide Bit, Xor, Shift, TopBit, Content;
    forall e: nat
      ensures Bit(BitStep(c), e) <==>
                (0 < e < 16 && Bit(c, e - 1)) != (TopBit(c) && e in GENERATOR && e < 16)
    {
      BitShift(c, e);
      PolynomialBits(e);
      BitXor(Shift(c), POLYNOMIAL, e);
    }
    PolynomialBits(15);
    NoHighBits(c);
    NoHighBits(BitStep(c));
    assert Content(BitStep(c)) == Add(TimesX(Content(c)), if TopBit(c) then GENERATOR else {});
  }

  // ---- arithmetic of polynomials ----

  lemma AddRules(a: Poly, b: Poly, c: Poly)
    ensures Add(a, b) == Add(b, a) && Add(Add(a, b), c) == Add(a, Add(b, c))
    ensures Add(a, {}) == a && Add(a, a) == {}
  {
  }

  lemma TimesXAdd(a: Poly, b: Poly)
    ensures TimesX(Add(a, b)) == Add(TimesX(a), TimesX(b))
    ensures TimesX({}) == {}
  {
  }

  lemma {:induction false} ShiftedAdd(a: Poly, b: Poly, n: nat)
    ensures Shifted(Add(a, b), n) == Add(Shifted(a, n), Shifted(b, n))
  {
    hide Add, TimesX;
    if n == 0 {
    } else {
      ShiftedAdd(a, b, n - 1);
      TimesXAdd(Shifted(a, n - 1), Shifted(b, n - 1));
    }
  }

  lemma {:induction false} ShiftedTwice(a: Poly, m: nat, n: nat)
    ensures Shifted(Shifted(a, m), n) == Shifted(a, m + n)
  {
    hide TimesX;
    if n == 0 {
    } else {
      ShiftedTwice(a, m, n - 1);
    }
  }

  lemma MultipleSnoc(q: seq<bool>, t: bool)
    ensures Multiple(q + [t]) == Add(TimesX(Multiple(q)), if t then GENERATOR else {})
  {
    assert (q + [t])[..|q|] == q;
  }

  // ---- the register divides ----

  /** A register that holds `p` up to a multiple of the generator holds x * p up to another after a turn. */
  lemma TurnKeepsRest(c: Crc, p: Poly, q: seq<bool>)
    requires Content(c) == Add(p, Multiple(q))
    ensures Content(BitStep(c)) == Add(TimesX(p), Multiple(q + [TopBit(c)]))
  {
    hide Content, BitStep, TopBit, Multiple, Add, TimesX;
    TurnDivides(c);
    MultipleSnoc(q, TopBit(c));
    TimesXAdd(p, Multiple(q));
    AddRules(TimesX(p), TimesX(Multiple(q)), if TopBit(c) then GENERATOR else {});
  }

  lemma {:induction false} TurnsKeepRest(c: Crc, p: Poly, q: seq<bool>, n: nat) returns (r: seq<bool>)
    requires Content(c) == Add(p, Multiple(q))
    ensures Content(Crc16.Steps(c, n)) == Add(Shifted(p, n), Multiple(r)) && |r| == |q| + n
  {
    hide Content, BitStep, TopBit, Multiple, Add, TimesX;
    if n == 0 {
      r := q;
    } else {
      r := TurnsKeepRest(c, p, q, n - 1);
      TurnKeepsRest(Crc16.Steps(c, n - 1), Shifted(p, n - 1), r);
      r := r + [TopBit(Crc16.Steps(c, n - 1))];
    }
  }

  lemma FreeShift(c: Crc)
    requires !TopBit(c)
    ensures Content(Shift(c)) == TimesX(Content(c))
  {
    hide Content, TopBit, Shift, TimesX;
    TurnDivides(c);
    AddRules(TimesX(Content(c)), {}, {});
  }

  function Slid(c: Crc, n: nat): Crc { if n == 0 then c else Shift(Slid(c, n - 1)) }

  /** No bit falls out in the first `n` shifts. */
  predicate Room(c: Crc, n: nat) { n == 0 || (Room(c, n - 1) && !TopBit(Slid(c, n - 1))) }

  lemma ByteFits(b: Byte)
    ensures var c := b as Crc;
            && !TopBit(c) && !TopBit(c << 1) && !TopBit(c << 2) && !TopBit(c << 3)
            && !TopBit(c << 4) && !TopBit(c << 5) && !TopBit(c << 6) && !TopBit(c << 7)
  {
  }

  lemma ShiftOnce(c: Crc)
    ensures Shift(c) == c << 1 && Shift(c << 1) == c << 2 && Shift(c << 2) == c << 3 && Shift(c << 3) == c << 4
    ensures Shift(c << 4) == c << 5 && Shift(c << 5) == c << 6 && Shift(c << 6) == c << 7 && Shift(c << 7) == c << 8
  {
  }

  lemma SlidTwice(c: Crc, n: nat)
    ensures Slid(c, 0) == c && Room(c, 0)
    ensures Slid(c, n + 1) == Shift(Slid(c, n)) && (Room(c, n + 1) <==> Room(c, n) && !TopBit(Slid(c, n)))
  {
  }

  /** A byte moves to the top of the register. */
  lemma ByteRoom(b: Byte)
    ensures Slid(b as Crc, 8) == Crc16.Top(b) && Room(b as Crc, 8)
  {
    hide Shift, TopBit, Slid, Room;
    var c := b as Crc;
    ByteFits(b);
    ShiftOnce(c);
    SlidTwice(c, 0);
    SlidTwice(c, 1);
    SlidTwice(c, 2);
    SlidTwice(c, 3);
    SlidTwice(c, 4);
    SlidTwice(c, 5);
    SlidTwice(c, 6);
    SlidTwice(c, 7);
  }

  lemma {:induction false} SlidContent(c: Crc, n: nat)
    requires Room(c, n)
    ensures Content(Slid(c, n)) == Shifted(Content(c), n)
  {
    hide Content, TopBit, Shift, TimesX;
    if n == 0 {
    } else {
      SlidContent(c, n - 1);
      FreeShift(Slid(c, n - 1));
    }
  }

  lemma TopContent(b: Byte)
    ensures Content(Crc16.Top(b)) == Shifted(BytePoly(b), 8)
  {
    hide Content, TopBit, Slid, Room, Shifted;
    ByteRoom(b);
    SlidContent(b as Crc, 8);
  }

  /** What the register is congruent to after `data`: what it held before, shifted by the length of the data, and the
      data, shifted by the length of the register. */
  function Dividend(c: Poly, data: seq<Byte>): Poly {
    Add(Shifted(c, 8 * |data|), Shifted(Message(data), 16))
  }

  lemma DividendSnoc(c: Poly, data: seq<Byte>)
    requires data != []
    ensures var n := |data| - 1;
            Dividend(c, data) == Shifted(Add(Dividend(c, data[..n]), Shifted(BytePoly(data[n]), 8)), 8)
  {
    hide Add, Shifted, BytePoly;
    var n := |data| - 1;
    var m, b := Message(data[..n]), BytePoly(data[n]);
    var x, y := Shifted(c, 8 * n), Shifted(m, 16);
    ShiftedAdd(Add(x, y), Shifted(b, 8), 8);
    ShiftedAdd(x, y, 8);
    ShiftedTwice(c, 8 * n, 8);
    ShiftedTwice(m, 16, 8);
    ShiftedTwice(b, 8, 8);
    ShiftedAdd(Shifted(m, 8), b, 16);
    ShiftedTwice(m, 8, 16);
    AddRules(Shifted(c, 8 * |data|), Shifted(m, 24), Shifted(b, 16));
  }

  lemma {:induction false} NothingShifted(n: nat)
    ensures Shifted({}, n) == {}
  {
    if n == 0 {
    } else {
      NothingShifted(n - 1);
      TimesXAdd({}, {});
    }
  }

  lemma EmptyDividend(c: Poly)
    ensures Add(Dividend(c, []), Multiple([])) == c
  {
    hide Add, TimesX;
    assert Shifted({}, 16) == {} by { NothingShifted(16); }
    AddRules(c, {}, {});
    AddRules(Add(c, {}), {}, {});
  }

  /** The checksum of any data, from any register: the remainder of the dividend by the generator. */
  lemma {:induction false} UpdateDivides(c: Crc, data: seq<Byte>) returns (q: seq<bool>)
    ensures Content(Crc16.Update(c, data)) == Add(Dividend(Content(c), data), Multiple(q)) && |q| == 8 * |data|
  {
    hide Content, Add, Shifted, Message, Multiple, Crc16.Steps, Crc16.Top, BytePoly;
    if data == [] {
      q := [];
      EmptyDividend(Content(c));
    } else {
      var n := |data| - 1;
      q := UpdateDivides(c, data[..n]);
      var u := Crc16.Update(c, data[..n]);
      var top := Crc16.Top(data[n]);
      ContentXor(u, top);
      TopContent(data[n]);
      var p, b := Dividend(Content(c), data[..n]), Shifted(BytePoly(data[n]), 8);
      AddRules(p, Multiple(q), b);
      AddRules(p, b, Multiple(q));
      AddRules(Multiple(q), b, {});
      q := TurnsKeepRest(Xor(u, top), Add(p, b), q, 8);
      DividendSnoc(Content(c), data);
    }
  }

  // ---- there is only one remainder ----

  /** A polynomial of degree below 16. */
  ghost predicate Low(p: Poly) { forall e :: e in p ==> e < 16 }

  lemma {:induction false} MultipleIsHigh(q: seq<bool>)
    ensures Low(Multiple(q)) ==> Multiple(q) == {}
  {
    if q == [] {
    } else {
      var m := Multiple(q[..|q| - 1]);
      MultipleIsHigh(q[..|q| - 1]);
      if m == {} {
        TimesXAdd({}, {});
      } else {
        var e :| e in m && e >= 16;
        assert e + 1 in Multiple(q);
      }
    }
  }

  lemma {:induction false} LeadingZeros(q: seq<bool>, n: nat)
    ensures Multiple(seq(n, _ => false) + q) == Multiple(q)
    decreases |q|, n
  {
    hide Add, TimesX;
    var zeros := seq(n, _ => false);
    if q != [] {
      LeadingZeros(q[..|q| - 1], n);
      assert zeros + q == zeros + q[..|q| - 1] + [q[|q| - 1]] && q == q[..|q| - 1] + [q[|q| - 1]];
      MultipleSnoc(zeros + q[..|q| - 1], q[|q| - 1]);
    } else if n > 0 {
      LeadingZeros([], n - 1);
      assert zeros + [] == (seq(n - 1, _ => false) + []) + [false];
      MultipleSnoc(seq(n - 1, _ => false) + [], false);
      TimesXAdd({}, {});
      AddRules({}, {}, {});
    } else {
      assert zeros + [] == [];
    }
  }

  lemma TermsRegroup(a: Poly, b: Poly, s: bool, t: bool)
    ensures Add(Add(a, if s then GENERATOR else {}), Add(b, if t then GENERATOR else {})) ==
            Add(Add(a, b), if s != t then GENERATOR else {})
  {
  }

  lemma {:induction false} MultiplesAdd(q: seq<bool>, r: seq<bool>) returns (t: seq<bool>)
    requires |q| == |r|
    ensures Add(Multiple(q), Multiple(r)) == Multiple(t)
  {
    hide Add, TimesX;
    if q == [] {
      t := [];
      AddRules({}, {}, {});
    } else {
      var n := |q| - 1;
      t := MultiplesAdd(q[..n], r[..n]);
      var a, b := TimesX(Multiple(q[..n])), TimesX(Multiple(r[..n]));
      TimesXAdd(Multiple(q[..n]), Multiple(r[..n]));
      TermsRegroup(a, b, q[n], r[n]);
      MultipleSnoc(t, q[n] != r[n]);
      t := t + [q[n] != r[n]];
    }
  }

  /** Two polynomials of low degree that differ by multiples of the generator are the same. */
  lemma RemainderUnique(p: Poly, a: Poly, q: seq<bool>, b: Poly, r: seq<bool>)
    requires Low(a) && Low(b) && a == Add(p, Multiple(q)) && b == Add(p, Multiple(r))
    ensures a == b
  {
    hide Multiple;
    LeadingZeros(q, |r|);
    LeadingZeros(r, |q|);
    var t := MultiplesAdd(seq(|r|, _ => false) + q, seq(|q|, _ => false) + r);
    MultipleIsHigh(t);
    assert Add(a, b) == Multiple(t);
    assert Low(Add(a, b));
    assert forall e: nat :: e in a <==> e in b;
  }

  /** A register of sixteen ones. */
  const ONES: Poly := {0, 1, 2, 3, 4, 5, 6, 7, 8, 9, 10, 11, 12, 13, 14, 15}

  lemma InitIsOnes()
    ensures Content(Crc16.INIT) == ONES
  {
    forall e: nat
      ensures Bit(Crc16.INIT, e) <==> e < 16
    {
    }
  }

  /** The checksum of a message is the remainder by x^16 + x^12 + x^5 + 1 of the message times x^16 with its first 16
      bits inverted: it has degree below 16, differs from that by a multiple, and nothing else does. */
  lemma ChecksumIsRemainder(data: seq<Byte>)
    ensures Low(Content(Crc16.Of(data)))
    ensures exists q :: Content(Crc16.Of(data)) == Add(Dividend(ONES, data), Multiple(q))
    ensures forall p: Poly, q :: Low(p) && p == Add(Dividend(ONES, data), Multiple(q)) ==> p == Content(Crc16.Of(data))
  {
    hide Multiple, Dividend, Add, Content, Crc16.Update;
    InitIsOnes();
    NoHighBits(Crc16.Of(data));
    var q := UpdateDivides(Crc16.INIT, data);
    forall p: Poly, r | Low(p) && p == Add(Dividend(ONES, data), Multiple(r))
      ensures p == Content(Crc16.Of(data))
    {
      RemainderUnique(Dividend(ONES, data), p, r, Content(Crc16.Of(data)), q);
    }
  }
}
