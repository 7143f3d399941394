/** Adler-32 and Fletcher-32 over 16-bit words (Checksums.cpp). The 32-bit
    accumulators are a range-checked type, so "no overflow" is proved at every
    addition. Adler-32 here sums 16-bit words; section 8.2 of RFC 1950 sums bytes. */
module Checksums {
  import opened Modular
  import opened Words

  const ADLER: int := 65521
  const FLETCHER: int := 65535

  /** Plain sum of the words. */
  function Sum(words: seq<uint16>): (s: int)
    ensures s >= 0
  {
    if |words| == 0 then 0 else words[0] as int + Sum(words[1..])
  }

  /** Sum of the running sums: the word at position i counts |words| - i times. */
  function Weighted(words: seq<uint16>): (s: int)
    ensures s >= 0
  {
    if |words| == 0 then 0 else Times(|words|, words[0] as int) + Weighted(words[1..])
  }

  /** Named product: the lemmas below use its distributive law and nothing else. */
  function Times(x: int, y: int): (p: int)
    ensures x >= 0 && y >= 0 ==> p >= 0
  {
    x * y
  }

  lemma TimesAdds(x: int, y: int, z: int)
    ensures Times(x + y, z) == Times(x, z) + Times(y, z)
    ensures Times(x, y + z) == Times(x, y) + Times(x, z)
    ensures Times(x, 0) == 0 && Times(1, z) == z
  {
  }

  /** The two sums after words, starting from a and b, before any reduction. */
  function SumA(a: int, words: seq<uint16>): int {
    a + Sum(words)
  }

  function SumB(a: int, b: int, words: seq<uint16>): int {
    b + Times(|words|, a) + Weighted(words)
  }

  /** (b << 16) | a for two halves that fit in 16 bits. */
  function Pack(a: int, b: int): int {
    b * 0x1_0000 + a
  }

  function AdlerOf(words: seq<uint16>): int {
    Pack(Residue(SumA(1, words), ADLER), Residue(SumB(1, 0, words), ADLER))
  }

  function FletcherOf(words: seq<uint16>): int {
    Pack(Residue(SumA(0, words), FLETCHER), Residue(SumB(0, 0, words), FLETCHER))
  }

  lemma PackIsShiftOr(a: bv32, b: bv32)
    requires a < 0x1_0000 && b < 0x1_0000
    ensures (b << 16) | a == (b << 16) + a
  {
  }

  lemma PackInjective(a: int, b: int, c: int, d: int)
    requires 0 <= a < 0x1_0000 && 0 <= c < 0x1_0000
    ensures Pack(a, b) == Pack(c, d) <==> a == c && b == d
  {
  }

  // ---- Sums of concatenations and of changed words ----

  lemma {:induction false} SumAppend(xs: seq<uint16>, ys: seq<uint16>)
    ensures Sum(xs + ys) == Sum(xs) + Sum(ys)
    ensures Weighted(xs + ys) == Weighted(xs) + Times(|ys|, Sum(xs)) + Weighted(ys)
  {
    hide Times;
    if |xs| == 0 {
      assert xs + ys == ys;
      TimesAdds(|ys|, 0, 0);
    } else {
      assert (xs + ys)[1..] == xs[1..] + ys;
      TimesAdds(|xs|, |ys|, xs[0] as int);
      TimesAdds(|ys|, xs[0] as int, Sum(xs[1..]));
      SumAppend(xs[1..], ys);
    }
  }

  lemma SumLast(words: seq<uint16>, i: nat)
    requires i < |words|
    ensures Sum(words[..i + 1]) == Sum(words[..i]) + words[i] as int
    ensures Weighted(words[..i + 1]) == Weighted(words[..i]) + Sum(words[..i]) + words[i] as int
  {
    assert words[..i + 1] == words[..i] + [words[i]];
    TimesAdds(0, 0, words[i] as int);
    SumAppend(words[..i], [words[i]]);
  }

  lemma UpdateTail(words: seq<uint16>, i: nat, w: uint16)
    requires 0 < i < |words|
    ensures words[i := w][0] == words[0] && words[i := w][1..] == words[1..][i - 1 := w]
  {
  }

  lemma {:induction false} SumUpdate(words: seq<uint16>, i: nat, w: uint16)
    requires i < |words|
    ensures Sum(words[i := w]) == Sum(words) + (w as int - words[i] as int)
    ensures Weighted(words[i := w]) == Weighted(words) + (|words| - i) * (w as int - words[i] as int)
  {
    if i == 0 {
      assert words[0 := w][1..] == words[1..];
      assert |words| * (w as int - words[0] as int) == |words| * w as int - |words| * words[0] as int;
    } else {
      hide Times;
      UpdateTail(words, i, w);
      SumUpdate(words[1..], i - 1, w);
    }
  }

  // ---- The loops ----

  /** One step of the sums. */
  lemma SumsStep(a: int, b: int, words: seq<uint16>, k: nat)
    requires k < |words|
    ensures SumA(a, words[..k + 1]) == SumA(a, words[..k]) + words[k] as int
    ensures SumB(a, b, words[..k + 1]) == SumB(a, b, words[..k]) + SumA(a, words[..k + 1])
  {
    SumLast(words, k);
    assert (k + 1) * a == k * a + a;
  }

  /** One step of their residues. */
  lemma ResiduesStep(a: int, b: int, words: seq<uint16>, k: nat, m: int)
    requires k < |words| && m > 0
    ensures (SumA(a, words[..k]) % m + words[k] as int) % m == SumA(a, words[..k + 1]) % m
    ensures (SumB(a, b, words[..k]) % m + SumA(a, words[..k + 1]) % m) % m == SumB(a, b, words[..k + 1]) % m
  {
    hide SumA, SumB;
    SumsStep(a, b, words, k);
    ModAdd(SumA(a, words[..k]), words[k] as int, m);
    ModAdd(SumB(a, b, words[..k]), SumA(a, words[..k + 1]), m);
  }

  lemma NoSums(a: int, b: int)
    ensures SumA(a, []) == a && SumB(a, b, []) == b
  {
  }

  method Adler32(p_data: seq<uint16>) returns (checksum: uint32)
    requires |p_data| < 0x1_0000_0000
    ensures checksum as int == AdlerOf(p_data)
  {
    hide SumA, SumB;
    NoSums(1, 0);
    var sumA: uint32 := 1;
    var sumB: uint32 := 0;
    for i := 0 to |p_data|
      invariant sumA as int == SumA(1, p_data[..i]) % ADLER
      invariant sumB as int == SumB(1, 0, p_data[..i]) % ADLER
    {
      ResiduesStep(1, 0, p_data, i, ADLER);
      sumA := (sumA + p_data[i] as uint32) % 65521;
      sumB := (sumB + sumA) % 65521;
    }
    assert p_data[..|p_data|] == p_data;
    checksum := sumB * 0x1_0000 + sumA;
  }

  method Fletcher32(p_data: seq<uint16>) returns (checksum: uint32)
    requires |p_data| < 0x1_0000_0000
    ensures checksum as int == FletcherOf(p_data)
  {
    hide SumA, SumB;
    NoSums(0, 0);
    var sumA: uint32 := 0;
    var sumB: uint32 := 0;
    for i := 0 to |p_data|
      invariant sumA as int == SumA(0, p_data[..i]) % FLETCHER
      invariant sumB as int == SumB(0, 0, p_data[..i]) % FLETCHER
    {
      ResiduesStep(0, 0, p_data, i, FLETCHER);
      sumA := (sumA + p_data[i] as uint32) % 65535;
      sumB := (sumB + sumA) % 65535;
    }
    assert p_data[..|p_data|] == p_data;
    checksum := sumB * 0x1_0000 + sumA;
  }

  // ---- Delayed reduction ----

  lemma TimesMod(n: nat, x: int, m: int)
    requires m > 0
    ensures (n * (x % m)) % m == (n * x) % m
  {
    assert n * x == n * (x % m) + (n * (x / m)) * m by {
      assert x == x % m + (x / m) * m;
      assert n * x == n * (x % m) + n * ((x / m) * m);
      assert n * ((x / m) * m) == (n * (x / m)) * m;
    }
    AddMultiple(n * (x % m), n * (x / m), m);
  }

  lemma SumsAppend(a: int, b: int, xs: seq<uint16>, ys: seq<uint16>)
    ensures SumA(a, xs + ys) == SumA(SumA(a, xs), ys)
    ensures SumB(a, b, xs + ys) == SumB(SumA(a, xs), SumB(a, b, xs), ys)
  {
    hide Times;
    SumAppend(xs, ys);
    TimesAdds(|xs|, |ys|, a);
    TimesAdds(|ys|, a, Sum(xs));
  }

  lemma SumsOfResidues(a: int, b: int, ys: seq<uint16>, m: int)
    requires m > 0
    ensures SumA(a % m, ys) % m == SumA(a, ys) % m
    ensures SumB(a % m, b % m, ys) % m == SumB(a, b, ys) % m
  {
    hide Sum, Weighted;
    var n, w := |ys|, Weighted(ys);
    ModAdd(a, Sum(ys), m);
    TimesMod(n, a, m);
    ModAdd(b, n * (a % m) + w, m);
    ModAdd(n * (a % m), b + w, m);
    ModAdd(n * a, b + w, m);
  }

  /** Composition: the residues after xs + ys follow from the residues after xs
      and from ys alone, so reducing between two blocks changes nothing. */
  lemma SumsCompose(a: int, b: int, xs: seq<uint16>, ys: seq<uint16>, m: int)
    requires m > 0
    ensures SumA(a, xs + ys) % m == SumA(SumA(a, xs) % m, ys) % m
    ensures SumB(a, b, xs + ys) % m == SumB(SumA(a, xs) % m, SumB(a, b, xs) % m, ys) % m
  {
    SumsAppend(a, b, xs, ys);
    SumsOfResidues(SumA(a, xs), SumB(a, b, xs), ys, m);
  }

  /** The checksum of two parts, from their checksums and the second's length. */
  function Joined(f: int, g: int, n: nat): int {
    var aF, bF, aG, bG := f % 0x1_0000, f / 0x1_0000, g % 0x1_0000, g / 0x1_0000;
    Pack(Residue(aF + aG, FLETCHER), Residue(bF + bG + n * aF, FLETCHER))
  }

  /** The same for Adler-32, whose first sum starts at 1. */
  function JoinedAdler(f: int, g: int, n: nat): int {
    var aF, bF, aG, bG := f % 0x1_0000, f / 0x1_0000, g % 0x1_0000, g / 0x1_0000;
    Pack(Residue(aF + aG - 1, ADLER), Residue(bF + bG + n * (aF - 1), ADLER))
  }

  lemma Unpack(a: int, b: int)
    requires 0 <= a < 0x1_0000
    ensures Pack(a, b) % 0x1_0000 == a && Pack(a, b) / 0x1_0000 == b
  {
    ModUnique(Pack(a, b), b, a, 0x1_0000);
  }

  lemma UnpackResidues(x: int, y: int, m: int)
    requires 0 < m <= 0x1_0000
    ensures var packed := Pack(Residue(x, m), Residue(y, m));
      packed % 0x1_0000 == Residue(x, m) && packed / 0x1_0000 == Residue(y, m)
  {
    Unpack(x % m, y % m);
  }

  lemma JoinedResidues(x: int, y: int, u: int, v: int, n: nat, t: int, m: int)
    requires m > 0
    ensures Residue(Residue(x, m) + Residue(u, m) + t, m) == Residue(x + u + t, m)
    ensures Residue(Residue(y, m) + Residue(v, m) + (n * Residue(x, m) + n * t), m)
         == Residue(y + v + n * (x + t), m)
  {
    hide *;
    var a, b, c, d := Residue(x, m), Residue(y, m), Residue(u, m), Residue(v, m);
    ResidueIsCongruent(x, m);
    ResidueIsCongruent(y, m);
    ResidueIsCongruent(u, m);
    ResidueIsCongruent(v, m);
    CongruentSum(a, x, c, u, m);
    CongruentSum(a + c, x + u, t, t, m);
    CongruentTimes(n, a, x, m);
    CongruentSum(n * a, n * x, n * t, n * t, m);
    CongruentSum(b, y, d, v, m);
    CongruentSum(b + d, y + v, n * a + n * t, n * x + n * t, m);
    CongruentResidues(a + c + t, x + u + t, m);
    CongruentResidues(b + d + (n * a + n * t), y + v + (n * x + n * t), m);
    assert n * (x + t) == n * x + n * t;
  }

  /** Composition of checksums: that of xs + ys follows from those of xs and ys
      and the length of ys. */
  lemma FletcherComposes(xs: seq<uint16>, ys: seq<uint16>)
    ensures FletcherOf(xs + ys) == Joined(FletcherOf(xs), FletcherOf(ys), |ys|)
  {
    var x, y, u, v := Sum(xs), Weighted(xs), Sum(ys), Weighted(ys);
    SumAppend(xs, ys);
    hide Sum, Weighted, Residue;
    TimesAdds(|xs|, 0, 0);
    UnpackResidues(x, y, FLETCHER);
    UnpackResidues(u, v, FLETCHER);
    JoinedResidues(x, y, u, v, |ys|, 0, FLETCHER);
  }

  lemma AdlerComposes(xs: seq<uint16>, ys: seq<uint16>)
    ensures AdlerOf(xs + ys) == JoinedAdler(AdlerOf(xs), AdlerOf(ys), |ys|)
  {
    var x, y, u, v := 1 + Sum(xs), |xs| + Weighted(xs), 1 + Sum(ys), |ys| + Weighted(ys);
    SumAppend(xs, ys);
    hide Sum, Weighted, Residue;
    TimesAdds(|xs|, 0, 1);
    TimesAdds(|ys|, 0, 1);
    UnpackResidues(x, y, ADLER);
    UnpackResidues(u, v, ADLER);
    JoinedResidues(x, y, u, v, |ys|, -1, ADLER);
  }

  lemma SumsOfOne(a: int, w: uint16)
    ensures SumA(a, [w]) == a + w as int && SumB(a, 0, [w]) == a + w as int
  {
    hide SumA, SumB;
    NoSums(a, 0);
    SumsStep(a, 0, [w], 0);
    assert [w][..1] == [w] && [w][..0] == [];
  }

  lemma Nothing()
    ensures Pack(Residue(1, ADLER), Residue(0, ADLER)) == 1
    ensures Pack(Residue(0, FLETCHER), Residue(0, FLETCHER)) == 0
  {
  }

  /** The checksums of no word and of one. With composition these determine both
      checksums of every input. */
  lemma ChecksumsOfOne(w: uint16)
    ensures AdlerOf([]) == 1 && FletcherOf([]) == 0
    ensures AdlerOf([w]) == Pack(Residue(1 + w as int, 65521), Residue(1 + w as int, 65521))
    ensures FletcherOf([w]) == Pack(Residue(w as int, 65535), Residue(w as int, 65535))
  {
    NoSums(1, 0);
    NoSums(0, 0);
    Nothing();
    SumsOfOne(1, w);
    SumsOfOne(0, w);
    hide SumA, SumB, Residue, Pack;
  }

  function Triangle(n: nat): (t: nat)
    ensures 2 * t == n * (n + 1)
  {
    if n == 0 then 0 else n + Triangle(n - 1)
  }

  /** The largest value sumB can reach k words after a reduction. */
  function Peak(k: nat): int {
    65534 * (k + 1) + 65535 * Triangle(k)
  }

  lemma {:induction false} SumsBelowPeak(a: int, b: int, words: seq<uint16>)
    requires 0 <= a <= 65534 && 0 <= b <= 65534
    ensures 0 <= SumA(a, words) <= 65534 + 65535 * |words|
    ensures 0 <= SumB(a, b, words) <= Peak(|words|)
    decreases |words|
  {
    if |words| == 0 {
    } else {
      var k := |words| - 1;
      assert words[..k + 1] == words;
      SumsStep(a, b, words, k);
      SumsBelowPeak(a, b, words[..k]);
    }
  }

  function Ones(k: nat): (words: seq<uint16>)
    ensures |words| == k
  {
    seq(k, _ => 0xFFFF)
  }

  lemma {:induction false} PeakIsReached(k: nat)
    ensures SumA(65534, Ones(k)) == 65534 + 65535 * k
    ensures SumB(65534, 65534, Ones(k)) == Peak(k)
  {
    if k == 0 {
    } else {
      assert Ones(k)[..k] == Ones(k);
      assert Ones(k)[..k - 1] == Ones(k - 1);
      SumsStep(65534, 65534, Ones(k), k - 1);
      PeakIsReached(k - 1);
    }
  }

  lemma {:induction false} PeakGrows(k: nat, n: nat)
    requires k <= n
    ensures Peak(k) <= Peak(n)
    decreases n
  {
    if k == n {
    } else {
      PeakGrows(k, n - 1);
    }
  }

  predicate StaysBelow(a: int, b: int, words: seq<uint16>) {
    SumA(a, words) < 0x1_0000_0000 && SumB(a, b, words) < 0x1_0000_0000
  }

  /** No block of k words overflows, whatever residues it starts from. */
  ghost predicate NeverOverflows(k: nat) {
    forall a, b, words: seq<uint16> ::
      0 <= a <= 65534 && 0 <= b <= 65534 && |words| == k ==> StaysBelow(a, b, words)
  }

  /** 360 is the largest block that can be summed between reductions. */
  lemma LargestSafeBlock(k: nat)
    ensures NeverOverflows(k) <==> k <= 360
  {
    if k <= 360 {
      PeakGrows(k, 360);
      forall a, b, words: seq<uint16> | 0 <= a <= 65534 && 0 <= b <= 65534 && |words| == k
        ensures StaysBelow(a, b, words)
      {
        SumsBelowPeak(a, b, words);
      }
    } else {
      PeakGrows(361, k);
      PeakIsReached(k);
      assert !StaysBelow(65534, 65534, Ones(k));
    }
  }

  /** Blocks of 360 words summed without reducing, then the remainder. */
  method Fletcher32_improved(p_data: seq<uint16>) returns (checksum: uint32)
    requires |p_data| < 0x1_0000_0000
    ensures checksum as int == FletcherOf(p_data)
  {
    var sumA: uint32, sumB: uint32 := 0, 0;
    var p_size := |p_data|;
    var at := 0;
    while p_size >= 360
      invariant at + p_size == |p_data| && p_size >= 0
      invariant sumA as int == SumA(0, p_data[..at]) % FLETCHER
      invariant sumB as int == SumB(0, 0, p_data[..at]) % FLETCHER
    {
      ghost var block := p_data[at..at + 360];
      assert p_data[..at + 360] == p_data[..at] + block;
      SumsCompose(0, 0, p_data[..at], block, FLETCHER);
      sumA, sumB := SumBlock(sumA, sumB, p_data, at, 360);
      at := at + 360;
      sumA := sumA % 65535;
      sumB := sumB % 65535;
      p_size := p_size - 360;
    }
    assert p_data == p_data[..at] + p_data[at..at + p_size];
    SumsCompose(0, 0, p_data[..at], p_data[at..at + p_size], FLETCHER);
    sumA, sumB := SumBlock(sumA, sumB, p_data, at, p_size);
    sumA := sumA % 65535;
    sumB := sumB % 65535;
    checksum := sumB * 0x1_0000 + sumA;
  }

  /** The inner loop, which lines 40-44 and 48-52 share. */
  method SumBlock(startA: uint32, startB: uint32, p_data: seq<uint16>, at: nat, n: nat)
    returns (sumA: uint32, sumB: uint32)
    requires startA <= 65534 && startB <= 65534 && n <= 360 && at + n <= |p_data|
    ensures sumA as int == SumA(startA as int, p_data[at..at + n])
    ensures sumB as int == SumB(startA as int, startB as int, p_data[at..at + n])
  {
    sumA, sumB := startA, startB;
    ghost var block := p_data[at..at + n];
    for i := 0 to n
      invariant sumA as int == SumA(startA as int, block[..i])
      invariant sumB as int == SumB(startA as int, startB as int, block[..i])
    {
      SumsStep(startA as int, startB as int, block, i);
      SumsBelowPeak(startA as int, startB as int, block[..i + 1]);
      PeakGrows(i + 1, 360);
      sumA := sumA + p_data[at + i] as uint32;
      sumB := sumB + sumA;
    }
    assert block[..n] == block;
  }

  // ---- What the checksums detect ----

  lemma ShiftedResidues(x: int, y: int, n: int, d: int)
    requires -FLETCHER <= d <= FLETCHER && d != 0
    ensures (x + d) % FLETCHER == x % FLETCHER && (y + n * d) % FLETCHER == y % FLETCHER
       <==> d == FLETCHER || d == -FLETCHER
  {
    CongruentIffEqualResidues(x + d, x, FLETCHER);
    if d == FLETCHER {
      AddMultiple(y, n, FLETCHER);
    } else if d == -FLETCHER {
      AddMultiple(y, -n, FLETCHER);
    }
  }

  /** Fletcher-32 misses a change of one word exactly when 0x0000 and 0xFFFF,
      the two names of zero modulo 65535, are exchanged. */
  lemma FletcherSingleWord(words: seq<uint16>, i: nat, w: uint16)
    requires i < |words| && w != words[i]
    ensures FletcherOf(words[i := w]) == FletcherOf(words) <==> {w, words[i]} == {0, 0xFFFF}
  {
    var d := w as int - words[i] as int;
    SumUpdate(words, i, w);
    PackInjective(SumA(0, words[i := w]) % FLETCHER, SumB(0, 0, words[i := w]) % FLETCHER,
                  SumA(0, words) % FLETCHER, SumB(0, 0, words) % FLETCHER);
    ShiftedResidues(SumA(0, words), SumB(0, 0, words), |words| - i, d);
  }

  function Swap(words: seq<uint16>, i: nat, j: nat): seq<uint16>
    requires i < |words| && j < |words|
  {
    words[i := words[j]][j := words[i]]
  }

  /** Adler-32 over 16-bit words misses a swap exactly when the two words or the
      two positions agree modulo 65521. */
  lemma AdlerSwap(words: seq<uint16>, i: nat, j: nat)
    requires i < j < |words|
    ensures AdlerOf(Swap(words, i, j)) == AdlerOf(words)
       <==> Congruent(words[i] as int, words[j] as int, ADLER) || Congruent(j, i, ADLER)
  {
    var d := words[i] as int - words[j] as int;
    var swapped := Swap(words, i, j);
    SwapSums(words, i, j);
    hide SumA, SumB, Swap, Congruent;
    PackInjective(SumA(1, swapped) % ADLER, SumB(1, 0, swapped) % ADLER,
                  SumA(1, words) % ADLER, SumB(1, 0, words) % ADLER);
    CongruentIffEqualResidues(SumB(1, 0, words), SumB(1, 0, swapped), ADLER);
    SameDifference(SumB(1, 0, words), SumB(1, 0, swapped), (j - i) * d, ADLER);
    ProductCongruence(j, i, words[i] as int, words[j] as int);
  }

  /** A swap keeps the first sum and moves the second by the two distances. */
  lemma SwapSums(words: seq<uint16>, i: nat, j: nat)
    requires i < j < |words|
    ensures SumA(1, Swap(words, i, j)) == SumA(1, words)
    ensures SumB(1, 0, words) - SumB(1, 0, Swap(words, i, j)) == (j - i) * (words[i] as int - words[j] as int)
  {
    hide Sum, Weighted, Times;
    SumUpdate(words, i, words[j]);
    SumUpdate(words[i := words[j]], j, words[i]);
    Distances(|words|, i, j, words[i] as int, words[j] as int);
  }

  lemma Distances(n: int, i: int, j: int, x: int, y: int)
    ensures (n - i) * (y - x) + (n - j) * (x - y) == -((j - i) * (x - y))
  {
    assert (n - i) * (y - x) == -((n - i) * (x - y));
    assert (n - i) * (x - y) == (n - j) * (x - y) + (j - i) * (x - y);
  }

  lemma SameDifference(x: int, y: int, d: int, m: int)
    requires m > 0 && x - y == d
    ensures Congruent(x, y, m) <==> Divides(m, d)
  {
  }

  /** 65521 divides a product of differences exactly if it divides one of them. */
  lemma ProductCongruence(j: int, i: int, x: int, y: int)
    ensures Divides(ADLER, (j - i) * (x - y)) <==> Congruent(x, y, ADLER) || Congruent(j, i, ADLER)
  {
    Prime65521();
    Euclid(ADLER, j - i, x - y);
  }
}
