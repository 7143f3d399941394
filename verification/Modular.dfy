/** Residues: what the checksum proofs need about % and about one prime. */
module Modular {

  lemma {:induction false} ModUnique(x: int, q: int, r: int, m: int)
    requires m > 0 && x == q * m + r && 0 <= r < m
    ensures x % m == r && x / m == q
  {
    var d := x / m - q;
    assert x == (x / m) * m + x % m;
    assert d * m == r - x % m;
    assert d >= 1 ==> d * m >= m;
    assert d <= -1 ==> d * m <= -m;
  }

  lemma AddMultiple(x: int, k: int, m: int)
    requires m > 0
    ensures (x + k * m) % m == x % m
  {
    ModUnique(x + k * m, x / m + k, x % m, m);
  }

  /** Reducing early or late makes no difference. */
  lemma ModAdd(x: int, y: int, m: int)
    requires m > 0
    ensures (x % m + y) % m == (x + y) % m
    ensures (x % m + y % m) % m == (x + y) % m
  {
    AddMultiple(x % m + y, x / m, m);
    AddMultiple(x % m + y % m, x / m + y / m, m);
    assert x + y == x % m + y + (x / m) * m;
    assert x + y == x % m + y % m + (x / m + y / m) * m;
  }

  /** x % m, named for the proofs that need only its laws. */
  function Residue(x: int, m: int): (r: int)
    requires m > 0
    ensures 0 <= r < m
  {
    x % m
  }

  ghost predicate Congruent(x: int, y: int, m: int)
    requires m > 0
  {
    (x - y) % m == 0
  }

  lemma CongruentIffEqualResidues(x: int, y: int, m: int)
    requires m > 0
    ensures Congruent(x, y, m) <==> x % m == y % m
  {
    var q := x / m - y / m;
    assert x - y == q * m + (x % m - y % m);
    if x % m >= y % m {
      ModUnique(x - y, q, x % m - y % m, m);
    } else {
      assert x - y == (q - 1) * m + (x % m - y % m + m);
      ModUnique(x - y, q - 1, x % m - y % m + m, m);
    }
  }

  ghost predicate Divides(p: int, x: int)
    requires p > 0
  {
    x % p == 0
  }

  lemma DividesQuotient(p: int, x: int) returns (q: int)
    requires p > 0 && Divides(p, x)
    ensures x == q * p
  {
    q := x / p;
  }

  lemma MultipleDivides(p: int, q: int)
    requires p > 0
    ensures Divides(p, q * p)
  {
    AddMultiple(0, q, p);
  }

  // ---- Congruence is kept by sums and multiples ----

  lemma CongruentSum(x: int, y: int, u: int, v: int, m: int)
    requires m > 0 && Congruent(x, y, m) && Congruent(u, v, m)
    ensures Congruent(x + u, y + v, m)
  {
    var p := DividesQuotient(m, x - y);
    var q := DividesQuotient(m, u - v);
    assert (p + q) * m == p * m + q * m;
    MultipleDivides(m, p + q);
  }

  lemma CongruentTimes(n: int, x: int, y: int, m: int)
    requires m > 0 && Congruent(x, y, m)
    ensures Congruent(n * x, n * y, m)
  {
    var q := DividesQuotient(m, x - y);
    assert n * x - n * y == n * (q * m) == (n * q) * m;
    MultipleDivides(m, n * q);
  }

  lemma ResidueIsCongruent(x: int, m: int)
    requires m > 0
    ensures Congruent(Residue(x, m), x, m) && Congruent(x, x, m)
  {
    CongruentIffEqualResidues(x % m, x, m);
    ModUnique(x % m, 0, x % m, m);
  }

  lemma CongruentResidues(x: int, y: int, m: int)
    requires m > 0 && Congruent(x, y, m)
    ensures Residue(x, m) == Residue(y, m)
  {
    CongruentIffEqualResidues(x, y, m);
  }

  /** No number strictly between 1 and p divides p. */
  ghost predicate Prime(p: int) {
    p > 1 && forall d :: 1 < d < p ==> p % d != 0
  }

  /** Euclid's lemma, by descent on the first factor. */
  lemma {:induction false} EuclidSmall(p: int, a: int, b: int)
    requires Prime(p) && 0 < a < p && Divides(p, a * b)
    ensures Divides(p, b)
    decreases a
  {
    if a == 1 {
    } else {
      var q, r := p / a, p % a;
      var k := DividesQuotient(p, a * b);
      assert r * b == (b - q * k) * p by {
        assert p == q * a + r;
        assert r * b == p * b - q * (a * b);
        assert q * (a * b) == q * (k * p) == (q * k) * p;
      }
      MultipleDivides(p, b - q * k);
      EuclidSmall(p, r, b);
    }
  }

  lemma Euclid(p: int, a: int, b: int)
    requires Prime(p)
    ensures Divides(p, a * b) <==> Divides(p, a) || Divides(p, b)
  {
    if Divides(p, a) {
      var k := DividesQuotient(p, a);
      assert a * b == (k * b) * p;
      MultipleDivides(p, k * b);
    } else if Divides(p, b) {
      var k := DividesQuotient(p, b);
      assert a * b == (a * k) * p;
      MultipleDivides(p, a * k);
    } else if Divides(p, a * b) {
      var r := a % p;
      var k := DividesQuotient(p, a * b);
      assert r * b == (k - (a / p) * b) * p by {
        assert a == (a / p) * p + r;
        assert r * b == a * b - ((a / p) * p) * b;
        assert ((a / p) * p) * b == ((a / p) * b) * p;
      }
      MultipleDivides(p, k - (a / p) * b);
      EuclidSmall(p, r, b);
    }
  }

  // ---- 65521, the modulus of Adler-32, is prime ----

  predicate NoDivisorUpTo(n: nat, high: nat) {
    if high < 2 then true else n % high != 0 && NoDivisorUpTo(n, high - 1)
  }

  lemma {:induction false} NoDivisorAt(n: nat, high: nat, d: nat)
    requires 2 <= d <= high && NoDivisorUpTo(n, high)
    ensures n % d != 0
  {
    if d != high {
      NoDivisorAt(n, high - 1, d);
    }
  }

  lemma NoDivisorUpTo64()
    ensures NoDivisorUpTo(65521, 64)
  {
    assert NoDivisorUpTo(65521, 9) && NoDivisorUpTo(65521, 17);
    assert NoDivisorUpTo(65521, 25) && NoDivisorUpTo(65521, 33);
    assert NoDivisorUpTo(65521, 41) && NoDivisorUpTo(65521, 49);
    assert NoDivisorUpTo(65521, 57) && NoDivisorUpTo(65521, 64);
  }

  lemma NoDivisorUpTo128()
    requires NoDivisorUpTo(65521, 64)
    ensures NoDivisorUpTo(65521, 128)
  {
    assert NoDivisorUpTo(65521, 72) && NoDivisorUpTo(65521, 80);
    assert NoDivisorUpTo(65521, 88) && NoDivisorUpTo(65521, 96);
    assert NoDivisorUpTo(65521, 104) && NoDivisorUpTo(65521, 112);
    assert NoDivisorUpTo(65521, 120) && NoDivisorUpTo(65521, 128);
  }

  lemma NoDivisorUpTo192()
    requires NoDivisorUpTo(65521, 128)
    ensures NoDivisorUpTo(65521, 192)
  {
    assert NoDivisorUpTo(65521, 136) && NoDivisorUpTo(65521, 144);
    assert NoDivisorUpTo(65521, 152) && NoDivisorUpTo(65521, 160);
    assert NoDivisorUpTo(65521, 168) && NoDivisorUpTo(65521, 176);
    assert NoDivisorUpTo(65521, 184) && NoDivisorUpTo(65521, 192);
  }

  lemma NoDivisorUpTo255()
    requires NoDivisorUpTo(65521, 192)
    ensures NoDivisorUpTo(65521, 255)
  {
    assert NoDivisorUpTo(65521, 200) && NoDivisorUpTo(65521, 208);
    assert NoDivisorUpTo(65521, 216) && NoDivisorUpTo(65521, 224);
    assert NoDivisorUpTo(65521, 232) && NoDivisorUpTo(65521, 240);
    assert NoDivisorUpTo(65521, 248) && NoDivisorUpTo(65521, 255);
  }

  lemma Prime65521()
    ensures Prime(65521)
  {
    NoDivisorUpTo64();
    NoDivisorUpTo128();
    NoDivisorUpTo192();
    NoDivisorUpTo255();
    forall d | 1 < d < 65521
      ensures 65521 % d != 0
    {
      if d < 256 {
        NoDivisorAt(65521, 255, d);
      } else if 65521 % d == 0 {
        var e := DividesQuotient(d, 65521);
        if e < 256 {
          NoDivisorAt(65521, 255, e);
          MultipleDivides(e, d);
        }
      }
    }
  }
}
