/** Numbers as bit strings, most significant bit first. */
module Bits {

  function Pow2(n: nat): (p: nat)
    ensures 0 < p
  {
    if n == 0 then 1 else 2 * Pow2(n - 1)
  }

  function ToBits(v: nat, n: nat): (bs: seq<bool>)
    ensures |bs| == n
  {
    seq(n, i requires 0 <= i < n => v / Pow2(n - 1 - i) % 2 == 1)
  }

  function FromBits(bs: seq<bool>): nat {
    if bs == [] then 0
    else 2 * FromBits(bs[..|bs| - 1]) + if bs[|bs| - 1] then 1 else 0
  }

  lemma HalveThenDivide(v: nat, p: nat)
    requires 0 < p
    ensures v / 2 / p == v / (2 * p)
  {
    var q, r := v / (2 * p), v % (2 * p);
    assert v == 2 * (p * q) + r;
    assert v / 2 == p * q + r / 2;
    assert r / 2 < p;
    Quotient(v / 2, p, q, r / 2);
  }

  lemma {:induction false} MulGap(p: nat, a: nat, b: nat)
    requires a < b
    ensures p * a + p <= p * b
    decreases b
  {
    assert p * b == p * (b - 1) + p;
    if a < b - 1 {
      MulGap(p, a, b - 1);
    }
  }

  lemma Quotient(x: nat, p: nat, q: nat, r: nat)
    requires 0 < p && r < p && x == p * q + r
    ensures x / p == q
  {
    var d := x / p;
    if d < q {
      MulGap(p, d, q);
      assert false;
    } else if q < d {
      MulGap(p, q, d);
      assert false;
    }
  }

  lemma UpperBits(v: nat, n: nat)
    requires 0 < n
    ensures ToBits(v, n)[..n - 1] == ToBits(v / 2, n - 1)
  {
    forall i | 0 <= i < n - 1
      ensures ToBits(v, n)[i] == ToBits(v / 2, n - 1)[i]
    {
      HalveThenDivide(v, Pow2(n - 2 - i));
      assert Pow2(n - 1 - i) == 2 * Pow2(n - 2 - i);
    }
  }

  lemma {:induction false} FromToBits(v: nat, n: nat)
    requires v < Pow2(n)
    ensures FromBits(ToBits(v, n)) == v
  {
    if n != 0 {
      FromToBits(v / 2, n - 1);
      UpperBits(v, n);
      assert ToBits(v, n)[n - 1] == (v % 2 == 1) by {
        assert Pow2(0) == 1;
      }
    }
  }

  lemma {:induction false} FromBitsConcat(a: seq<bool>, b: seq<bool>)
    ensures FromBits(a + b) == FromBits(a) * Pow2(|b|) + FromBits(b)
  {
    if b == [] {
      assert a + b == a;
    } else {
      var init := b[..|b| - 1];
      FromBitsConcat(a, init);
      assert (a + b)[..|a + b| - 1] == a + init;
      calc {
        2 * (FromBits(a) * Pow2(|init|));
        FromBits(a) * (2 * Pow2(|init|));
        FromBits(a) * Pow2(|b|);
      }
    }
  }

  lemma Powers()
    ensures Pow2(8) == 0x100 && Pow2(16) == 0x1_0000
  {
    assert Pow2(4) == 16;
    assert Pow2(8) == 0x100;
    assert Pow2(12) == 0x1000;
  }
}
