/** 32-bit sequence numbers as truncations of unbounded stream positions. */
module SeqNum {

  ghost function Size(x: int): nat {
    if x < 0 then 0x1_0000_0000 - x else x
  }

  /** The sequence number of an unbounded position: its remainder modulo 2^32 (see WrapMod).  The
      detour through Fold and Reduce keeps the verifier from unfolding it in every proof. */
  function Wrap(x: int): (r: nat)
    ensures r < 0x1_0000_0000
    decreases Size(x), 2
  {
    Fold(x)
  }

  function Fold(x: int): (r: nat)
    ensures r < 0x1_0000_0000
    decreases Size(x), 1
  {
    Reduce(x)
  }

  function Reduce(x: int): (r: nat)
    ensures r < 0x1_0000_0000
    decreases Size(x), 0
  {
    if x < 0 then Wrap(x + 0x1_0000_0000) else if x >= 0x1_0000_0000 then Wrap(x - 0x1_0000_0000) else x
  }

  function Plus(a: nat, n: int): nat {
    Wrap(a + n)
  }

  function Minus(a: nat, b: nat): nat {
    Wrap(a - b)
  }

  /** a - b is negative as a signed 32-bit number. */
  predicate SeqLt(a: nat, b: nat) {
    Minus(a, b) >= 0x8000_0000
  }

  predicate SeqLe(a: nat, b: nat) {
    Minus(a, b) == 0 || Minus(a, b) >= 0x8000_0000
  }

  /** The segment-lifetime bound: comparisons are only made within half the number space. */
  predicate Near(x: int, y: int) {
    -0x8000_0000 < x - y < 0x8000_0000
  }

  lemma {:induction false} WrapMod(x: int)
    ensures Wrap(x) == x % 0x1_0000_0000
    decreases Size(x)
  {
    assert Wrap(x) == Fold(x);
    assert Fold(x) == Reduce(x);
    if x < 0 {
      WrapMod(x + 0x1_0000_0000);
    } else if x >= 0x1_0000_0000 {
      WrapMod(x - 0x1_0000_0000);
    }
  }

  lemma PlusWrap(x: int, n: int)
    ensures Plus(Wrap(x), n) == Wrap(x + n)
  {
    WrapMod(x);
    WrapMod(x + n);
    WrapMod(Wrap(x) + n);
  }

  lemma MinusWrap(x: int, y: int)
    ensures Minus(Wrap(x), Wrap(y)) == Wrap(x - y)
  {
    WrapMod(x);
    WrapMod(y);
    WrapMod(x - y);
    WrapMod(Wrap(x) - Wrap(y));
  }

  /** Within the bound the comparisons agree with those of the positions. */
  lemma Compare(x: int, y: int)
    requires Near(x, y)
    ensures SeqLt(Wrap(x), Wrap(y)) <==> x < y
    ensures SeqLe(Wrap(x), Wrap(y)) <==> x <= y
    ensures Wrap(x) == Wrap(y) <==> x == y
    ensures x >= y ==> Minus(Wrap(x), Wrap(y)) == x - y
  {
    MinusWrap(x, y);
    WrapMod(x - y);
    WrapMod(x);
    WrapMod(y);
  }
}
