/** 64-bit words as numbers, with the bitwise operations on their binary digits. */
module Words {

  type Word = w: nat | w < 0x1_0000_0000_0000_0000

  /** The binary digit of `w` at position `i`. */
  predicate Bit(w: nat, i: nat) {
    if i == 0 then w % 2 == 1 else Bit(w / 2, i - 1)
  }

  /** 1 << k. */
  function Pow2(k: nat): (r: nat)
    ensures r > 0
  {
    if k == 0 then 1 else 2 * Pow2(k - 1)
  }

  lemma WordSize()
    ensures Pow2(64) == 0x1_0000_0000_0000_0000
  {
    assert Pow2(4) == 16;
    Doubled(4, 16);
    Doubled(8, 0x100);
    Doubled(16, 0x1_0000);
    Doubled(32, 0x1_0000_0000);
  }

  lemma Doubled(a: nat, p: nat)
    requires Pow2(a) == p
    ensures Pow2(2 * a) == p * p
  {
    Pow2Plus(a, a);
  }

  lemma {:induction false} Pow2Plus(a: nat, b: nat)
    ensures Pow2(a + b) == Pow2(a) * Pow2(b)
  {
    if b > 0 {
      Pow2Plus(a, b - 1);
      assert Pow2(a + b) == 2 * (Pow2(a) * Pow2(b - 1)) == Pow2(a) * (2 * Pow2(b - 1));
    }
  }

  /** The number whose low `k` digits are `f` of those of `v` and `w`. */
  function Bitwise(f: (bool, bool) -> bool, v: nat, w: nat, k: nat): (r: nat)
    ensures r < Pow2(k)
  {
    if k == 0 then 0 else
    2 * Bitwise(f, v / 2, w / 2, k - 1) + if f(v % 2 == 1, w % 2 == 1) then 1 else 0
  }

  lemma {:induction false} BitwiseBit(f: (bool, bool) -> bool, v: nat, w: nat, k: nat, i: nat)
    requires i < k
    ensures Bit(Bitwise(f, v, w, k), i) == f(Bit(v, i), Bit(w, i))
  {
    var r := Bitwise(f, v, w, k);
    assert r / 2 == Bitwise(f, v / 2, w / 2, k - 1);
    if i > 0 {
      BitwiseBit(f, v / 2, w / 2, k - 1, i - 1);
    }
  }

  lemma {:induction false} Pow2Bit(m: nat, i: nat)
    ensures Bit(Pow2(m), i) <==> i == m
  {
    if m > 0 && i > 0 {
      assert Pow2(m) / 2 == Pow2(m - 1);
      Pow2Bit(m - 1, i - 1);
    } else if i > 0 {
      ZeroBit(i - 1);
    }
  }

  lemma {:induction false} ZeroBit(i: nat)
    ensures !Bit(0, i)
  {
    if i > 0 {
      ZeroBit(i - 1);
    }
  }

  /** Numbers with the same digits are equal. */
  lemma {:induction false} SameBits(v: nat, w: nat, k: nat)
    requires v < Pow2(k) && w < Pow2(k) && forall i: nat :: i < k ==> Bit(v, i) == Bit(w, i)
    ensures v == w
  {
    if k > 0 {
      var (a, b) := (v / 2, w / 2);
      forall i: nat | i < k - 1
        ensures Bit(a, i) == Bit(b, i)
      {
        assert Bit(v, i + 1) == Bit(w, i + 1);
      }
      SameBits(a, b, k - 1);
      assert Bit(v, 0) == Bit(w, 0);
    }
  }

  function Or(v: Word, w: Word): Word { WordSize(); Bitwise((a, b) => a || b, v, w, 64) }

  function AndNot(v: Word, w: Word): Word { WordSize(); Bitwise((a, b) => a && !b, v, w, 64) }

  function And(v: Word, w: Word): Word { WordSize(); Bitwise((a, b) => a && b, v, w, 64) }

  function Xor(v: Word, w: Word): Word { WordSize(); Bitwise((a, b) => a != b, v, w, 64) }

  /** 1 << m, as a word. */
  function Mask(m: nat): Word
    requires m < 64
  {
    WordSize();
    Pow2Less(m, 64);
    Pow2(m)
  }

  lemma {:induction false} Pow2Less(m: nat, k: nat)
    requires m < k
    ensures Pow2(m) < Pow2(k)
  {
    if m + 1 < k {
      Pow2Less(m, k - 1);
    }
  }

  lemma EqualWords(v: Word, w: Word)
    requires forall i: nat :: i < 64 ==> Bit(v, i) == Bit(w, i)
    ensures v == w
  {
    WordSize();
    SameBits(v, w, 64);
  }

  /** Setting a digit. */
  lemma OrMask(w: Word, m: nat, i: nat)
    requires m < 64 && i < 64
    ensures Bit(Or(w, Mask(m)), i) <==> Bit(w, i) || i == m
  {
    BitwiseBit((a, b) => a || b, w, Mask(m), 64, i);
    Pow2Bit(m, i);
  }

  /** Clearing a digit. */
  lemma AndNotMask(w: Word, m: nat, i: nat)
    requires m < 64 && i < 64
    ensures Bit(AndNot(w, Mask(m)), i) <==> Bit(w, i) && i != m
  {
    BitwiseBit((a, b) => a && !b, w, Mask(m), 64, i);
    Pow2Bit(m, i);
  }

  /** Reading a digit. */
  lemma AndMask(w: Word, m: nat)
    requires m < 64
    ensures And(w, Mask(m)) != 0 <==> Bit(w, m)
  {
    var r := And(w, Mask(m));
    forall i: nat | i < 64
      ensures Bit(r, i) <==> Bit(w, i) && i == m
      ensures !Bit(0, i)
    {
      BitwiseBit((a, b) => a && b, w, Mask(m), 64, i);
      Pow2Bit(m, i);
      ZeroBit(i);
    }
    if !Bit(w, m) {
      EqualWords(r, 0);
    } else {
      assert Bit(r, m) && !Bit(0, m);
    }
  }

  /** How many of the low `k` digits are 1. */
  function OnesCount(w: nat, k: nat): nat {
    if k == 0 then 0 else OnesCount(w / 2, k - 1) + w % 2
  }

  /** The positions of the low `k` digits of `w` that are 1, counted from `base`. */
  ghost function Positions(w: nat, k: nat, base: nat): (r: set<nat>)
    ensures |r| == OnesCount(w, k)
    ensures forall x: nat :: x in r <==> base <= x < base + k && Bit(w, x - base)
  {
    if k == 0 then {} else
    Positions(w / 2, k - 1, base + 1) + if w % 2 == 1 then {base} else {}
  }
}
