/** 32-bit register words as sets of bit numbers.

Registers that are only ever used bit by bit (enables, interrupt types, interrupt status and
mask) are modelled as the set of their one bits; `BitsOf` and `WordOf` are the two directions
at the bus. */
module Words {
  const WORD_RANGE: nat := 0x1_0000_0000

  /** `(w >> k) & 1`. */
  predicate Bit(w: nat, k: nat) {
    if k == 0 then w % 2 == 1 else Bit(w / 2, k - 1)
  }

  function BitsOf(w: nat): (s: set<nat>)
    ensures forall k :: k in s <==> k < 32 && Bit(w, k)
  {
    set k | 0 <= k < 32 && Bit(w, k)
  }

  /** The number whose bits, from bit `from` of the set on, are the members of `s`. */
  function Pack(s: set<nat>, from: nat, width: nat): nat
    decreases width
  {
    if width == 0 then 0 else (if from in s then 1 else 0) + 2 * Pack(s, from + 1, width - 1)
  }

  function WordOf(s: set<nat>): nat {
    Pack(s, 0, 32)
  }

  lemma {:induction false} PackBits(s: set<nat>, from: nat, width: nat, k: nat)
    ensures Bit(Pack(s, from, width), k) <==> k < width && from + k in s
    decreases width, k
  {
    if width == 0 {
      ZeroHasNoBits(k);
    } else if k > 0 {
      PackBits(s, from + 1, width - 1, k - 1);
      Halve(if from in s then 1 else 0, Pack(s, from + 1, width - 1));
    } else {
      Halve(if from in s then 1 else 0, Pack(s, from + 1, width - 1));
    }
  }

  lemma Halve(b: nat, x: nat)
    requires b <= 1
    ensures (b + 2 * x) / 2 == x && (b + 2 * x) % 2 == b
  {}

  lemma {:induction false} ZeroHasNoBits(k: nat)
    ensures !Bit(0, k)
  {
    if k > 0 {
      ZeroHasNoBits(k - 1);
    }
  }

  /** A set of bit numbers below 32 survives the trip over the bus. */
  lemma BitsOfWordOf(s: set<nat>)
    requires forall k :: k in s ==> k < 32
    ensures BitsOf(WordOf(s)) == s
  {
    forall k: nat
      ensures k in BitsOf(WordOf(s)) <==> k in s
    {
      PackBits(s, 0, 32, k);
    }
  }

  function Pow2(k: nat): nat {
    if k == 0 then 1 else 2 * Pow2(k - 1)
  }

  lemma {:induction false} PackOfBits(w: nat, s: set<nat>, from: nat, width: nat)
    requires w < Pow2(width)
    requires forall k :: 0 <= k < width ==> (from + k in s <==> Bit(w, k))
    ensures Pack(s, from, width) == w
    decreases width
  {
    if width > 0 {
      forall k | 0 <= k < width - 1
        ensures from + 1 + k in s <==> Bit(w / 2, k)
      {
        assert from + (k + 1) in s <==> Bit(w, k + 1);
      }
      assert from + 0 in s <==> Bit(w, 0);
      PackOfBits(w / 2, s, from + 1, width - 1);
    }
  }

  /** And so does every 32-bit word. */
  lemma WordOfBitsOf(w: nat)
    requires w < WORD_RANGE
    ensures WordOf(BitsOf(w)) == w
  {
    Pow2At32();
    PackOfBits(w, BitsOf(w), 0, 32);
  }

  lemma Pow2At32()
    ensures Pow2(32) == WORD_RANGE
  {
    assert Pow2(8) == 256;
    assert Pow2(16) == 65536;
    assert Pow2(24) == 16777216;
  }
}
