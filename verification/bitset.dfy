/** Sets of operation ids packed into 64-bit words. */
module Bitsets {
  import opened Words

  function BitsetIndex(pos: nat): (r: (nat, nat))
    ensures r.1 < 64 && pos == 64 * r.0 + r.1
  {
    (pos / 64, pos % 64)
  }

  ghost predicate Has(w: seq<Word>, pos: nat) {
    var (major, minor) := BitsetIndex(pos);
    major < |w| && Bit(w[major], minor)
  }

  /** The set that the words store. */
  ghost function Members(w: seq<Word>): set<nat> {
    set x: nat | x < 64 * |w| && Has(w, x)
  }

  lemma MembersAt(w: seq<Word>, pos: nat)
    ensures pos in Members(w) <==> Has(w, pos)
  {
  }

  /** Words of the same length store the same set exactly when they are equal. */
  lemma MembersInjective(v: seq<Word>, w: seq<Word>)
    requires |v| == |w|
    ensures Members(v) == Members(w) <==> v == w
  {
    if Members(v) == Members(w) {
      forall i | 0 <= i < |v|
        ensures v[i] == w[i]
      {
        forall j: nat | j < 64
          ensures Bit(v[i], j) == Bit(w[i], j)
        {
          var x := 64 * i + j;
          assert BitsetIndex(x) == (i, j);
          MembersAt(v, x);
          MembersAt(w, x);
        }
        EqualWords(v[i], w[i]);
      }
    }
  }

  method NewBitset(bits: nat) returns (b: array<Word>)
    ensures fresh(b) && bits <= 64 * b.Length < bits + 64
    ensures Members(b[..]) == {}
  {
    var extra := 0;
    if bits % 64 != 0 {
      extra := 1;
    }
    b := new Word[bits / 64 + extra](_ => 0);
    forall x: nat
      ensures !Has(b[..], x)
    {
      ZeroBit(BitsetIndex(x).1);
    }
  }

  method Clone(b: array<Word>) returns (c: array<Word>)
    ensures fresh(c) && c[..] == b[..]
  {
    c := new Word[b.Length](i requires 0 <= i < b.Length reads b => b[i]);
  }

  method Set(b: array<Word>, pos: nat)
    requires pos < 64 * b.Length
    modifies b
    ensures Members(b[..]) == old(Members(b[..])) + {pos}
  {
    var (major, minor) := BitsetIndex(pos);
    b[major] := Or(b[major], Mask(minor));
    forall i: nat | i < 64
      ensures Bit(b[major], i) <==> Bit(old(b[major]), i) || i == minor
    {
      OrMask(old(b[major]), minor, i);
    }
    OneBitChanged(old(b[..]), b[..], pos, true);
  }

  method Clear(b: array<Word>, pos: nat)
    requires pos < 64 * b.Length
    modifies b
    ensures Members(b[..]) == old(Members(b[..])) - {pos}
  {
    var (major, minor) := BitsetIndex(pos);
    b[major] := AndNot(b[major], Mask(minor));
    forall i: nat | i < 64
      ensures Bit(b[major], i) <==> Bit(old(b[major]), i) && i != minor
    {
      AndNotMask(old(b[major]), minor, i);
    }
    OneBitChanged(old(b[..]), b[..], pos, false);
  }

  lemma OneBitChanged(v: seq<Word>, w: seq<Word>, pos: nat, bit: bool)
    requires pos < 64 * |v| && |v| == |w|
    requires var (major, minor) := BitsetIndex(pos);
             && w == v[major := w[major]]
             && forall i: nat :: i < 64 ==> (Bit(w[major], i) <==> if i == minor then bit else Bit(v[major], i))
    ensures Members(w) == if bit then Members(v) + {pos} else Members(v) - {pos}
  {
    forall x: nat
      ensures Has(w, x) <==> if x == pos then bit else Has(v, x)
    {
      var ((i, j), (k, l)) := (BitsetIndex(x), BitsetIndex(pos));
      assert x != pos ==> i != k || j != l;
    }
  }

  method Get(b: array<Word>, pos: nat) returns (r: bool)
    requires pos < 64 * b.Length
    ensures r <==> pos in Members(b[..])
  {
    var (major, minor) := BitsetIndex(pos);
    AndMask(b[major], minor);
    r := And(b[major], Mask(minor)) != 0;
  }

  method Equals(b: array<Word>, c: array<Word>) returns (r: bool)
    ensures r <==> b[..] == c[..]
  {
    if b.Length != c.Length {
      return false;
    }
    for i := 0 to b.Length
      invariant b[..i] == c[..i]
    {
      if b[i] != c[i] {
        return false;
      }
    }
    return true;
  }

  ghost function Ones(w: seq<Word>): nat {
    if w == [] then 0 else Ones(w[..|w| - 1]) + OnesCount(w[|w| - 1], 64)
  }

  ghost function XorAll(w: seq<Word>, start: Word): Word {
    if w == [] then start else Xor(XorAll(w[..|w| - 1], start), w[|w| - 1])
  }

  /** A count as a 64-bit word. */
  function ToWord(n: nat): Word { n % 0x1_0000_0000_0000_0000 }

  /** The hash depends on the stored words only, so equal bitsets land in the same bucket. */
  ghost function HashOf(w: seq<Word>): Word {
    XorAll(w, ToWord(Ones(w)))
  }

  /** An odd number of words have a 1 at position `i`. */
  ghost predicate OddAt(w: seq<Word>, i: nat) {
    w != [] && (OddAt(w[..|w| - 1], i) != Bit(w[|w| - 1], i))
  }

  lemma {:induction false} XorAllBit(w: seq<Word>, start: Word, i: nat)
    requires i < 64
    ensures Bit(XorAll(w, start), i) == (OddAt(w, i) != Bit(start, i))
  {
    if w != [] {
      XorAllBit(w[..|w| - 1], start, i);
      BitwiseBit((a, b) => a != b, XorAll(w[..|w| - 1], start), w[|w| - 1], 64, i);
    }
  }

  /** The digits of the hash: the parity of the digits of the words, flipped where the count has a 1. */
  lemma HashBit(w: seq<Word>, i: nat)
    requires i < 64
    ensures Bit(HashOf(w), i) == (OddAt(w, i) != Bit(ToWord(|Members(w)|), i))
  {
    OnesIsSize(w);
    XorAllBit(w, ToWord(Ones(w)), i);
  }

  /** The number of bits set is the size of the set. */
  lemma {:induction false} OnesIsSize(w: seq<Word>)
    ensures Ones(w) == |Members(w)|
  {
    if w == [] {
      assert Members(w) == {};
    } else {
      var n := |w| - 1;
      OnesIsSize(w[..n]);
      var last := Positions(w[n], 64, 64 * n);
      forall x: nat
        ensures x in Members(w) <==> x in Members(w[..n]) + last
      {
        MembersAt(w, x);
        MembersAt(w[..n], x);
        InLastWord(w, x);
      }
      assert Members(w) == Members(w[..n]) + last;
      assert Members(w[..n]) !! last;
    }
  }

  lemma InLastWord(w: seq<Word>, x: nat)
    requires w != []
    ensures var n := |w| - 1;
            Has(w, x) <==> Has(w[..n], x) || (64 * n <= x < 64 * n + 64 && Bit(w[n], x - 64 * n))
  {
    var (major, minor) := BitsetIndex(x);
    if major < |w| - 1 {
      assert w[..|w| - 1][major] == w[major];
    }
  }

  method Popcnt(b: array<Word>) returns (total: nat)
    ensures total == Ones(b[..]) == |Members(b[..])|
  {
    total := 0;
    for i := 0 to b.Length
      invariant total == Ones(b[..i])
    {
      assert b[..i + 1][..i] == b[..i];
      total := total + OnesCount(b[i], 64);
    }
    assert b[..b.Length] == b[..];
    OnesIsSize(b[..]);
  }

  method Hash(b: array<Word>) returns (hash: Word)
    ensures hash == HashOf(b[..])
  {
    var count := Popcnt(b);
    hash := ToWord(count);
    for i := 0 to b.Length
      invariant hash == XorAll(b[..i], ToWord(count))
    {
      assert b[..i + 1][..i] == b[..i];
      hash := Xor(hash, b[i]);
    }
    assert b[..b.Length] == b[..];
  }
}
