/** The seeded generator behind the flower field: `s := (s * 9301 + 49297) % 233280`. */
module FlowerField {

  const M := 233280
  const A := 9301
  const C := 49297

  /** JavaScript's remainder: the sign follows the dividend. */
  function Remainder(x: int, m: int): (r: int)
    requires m > 0
  {
    if x >= 0 then x % m else -((-x) % m)
  }

  function Step(s: int): int {
    Remainder(s * A + C, M)
  }

  predicate Residue(s: int) {
    0 <= s < M
  }

  function Iter(s: int, n: nat): int {
    if n == 0 then s else Step(Iter(s, n - 1))
  }

  /** On residues every intermediate value is an exact double and the state stays a residue. */
  lemma StepStaysExact(s: int)
    requires Residue(s)
    ensures Residue(Step(s)) && Step(s) == (s * A + C) % M
    ensures 0 <= s * A + C < 0x20_0000_0000_0000
  {
  }

  lemma {:induction false} IterResidue(s: int, n: nat)
    requires Residue(s)
    ensures Residue(Iter(s, n))
  {
    if n > 0 { IterResidue(s, n - 1); }
  }

  // ---------- the powers of the step, as affine maps ----------

  datatype Affine = Affine(a: nat, c: nat)

  function At(f: Affine, s: nat): nat {
    (f.a * s + f.c) % M
  }

  /** First `f`, then `g`. */
  function Then(f: Affine, g: Affine): Affine {
    Affine(g.a * f.a % M, (g.a * f.c + g.c) % M)
  }

  lemma ModOfMod(x: int, y: int, k: int)
    requires k >= 0
    ensures (k * (x % M) + y) % M == (k * x + y) % M
  {
    var q := x / M;
    assert x == q * M + x % M;
    assert k * x + y == (k * q) * M + (k * (x % M) + y) by {
      assert k * (q * M) == (k * q) * M;
    }
    AddMultiple(k * (x % M) + y, k * q);
  }

  lemma AddMultiple(z: int, q: int)
    ensures (q * M + z) % M == z % M
  {
  }

  lemma ThenIsComposition(f: Affine, g: Affine, s: nat)
    ensures At(Then(f, g), s) == At(g, At(f, s))
  {
    var a, t := g.a * f.a, g.a * f.c + g.c;
    calc {
      At(Then(f, g), s);
      (s * (a % M) + t % M) % M;
      { ModOfMod(a, t % M, s); }
      (s * a + t % M) % M;
      { ModOfMod(t, s * a, 1); }
      (s * a + t) % M;
      { Distribute(g.a, f.a, s, f.c); }
      (g.a * (f.a * s + f.c) + g.c) % M;
      { ModOfMod(f.a * s + f.c, g.c, g.a); }
      (g.a * At(f, s) + g.c) % M;
    }
  }

  lemma Distribute(x: int, y: int, s: int, z: int)
    ensures s * (x * y) + x * z == x * (y * s + z)
  {
  }

  /** `f` acts as `n` steps on every residue. */
  ghost predicate Acts(f: Affine, n: nat) {
    forall s :: Residue(s) ==> At(f, s) == Iter(s, n)
  }

  lemma {:induction false} IterAdds(s: int, m: nat, n: nat)
    ensures Iter(s, m + n) == Iter(Iter(s, m), n)
  {
    if n > 0 { IterAdds(s, m, n - 1); }
  }

  lemma ActsThen(f: Affine, m: nat, g: Affine, n: nat)
    requires Acts(f, m) && Acts(g, n)
    ensures Acts(Then(f, g), m + n)
  {
    forall s | Residue(s)
      ensures At(Then(f, g), s) == Iter(s, m + n)
    {
      ThenIsComposition(f, g, s);
      IterAdds(s, m, n);
      IterResidue(s, m);
    }
  }

  lemma ActsOne()
    ensures Acts(Affine(A, C), 1)
  {
    forall s | Residue(s)
      ensures At(Affine(A, C), s) == Iter(s, 1)
    {
      assert Iter(s, 1) == Step(Iter(s, 0));
    }
  }

  function Sixfold(f: Affine): Affine {
    var cube := Then(Then(f, f), f);
    Then(cube, cube)
  }

  lemma ActsSixfold(f: Affine, n: nat)
    requires Acts(f, n)
    ensures Acts(Sixfold(f), 6 * n)
  {
    ActsThen(f, n, f, n);
    ActsThen(Then(f, f), 2 * n, f, n);
    ActsThen(Then(Then(f, f), f), 3 * n, Then(Then(f, f), f), 3 * n);
  }

  lemma SixfoldIs(f: Affine, square: Affine, cube: Affine, g: Affine)
    requires square == Then(f, f) && cube == Then(square, f) && g == Then(cube, cube)
    ensures Sixfold(f) == g
  {
  }

  // M == 6^6 * 5, so the decisive powers are reached by sixfold composition; here are its values.

  lemma Power6()
    ensures Sixfold(Affine(A, C)) == Affine(14761, 14802)
  {
    SixfoldIs(Affine(9301, 49297), Affine(195001, 165494), Affine(185581, 127551), Affine(14761, 14802));
  }

  lemma Power36()
    ensures Sixfold(Affine(14761, 14802)) == Affine(166321, 56412)
  {
    SixfoldIs(Affine(14761, 14802), Affine(3601, 157044), Affine(199801, 37926), Affine(166321, 56412));
  }

  lemma Power216()
    ensures Sixfold(Affine(166321, 56412)) == Affine(64801, 105192)
  {
    SixfoldIs(Affine(166321, 56412), Affine(99361, 35064), Affine(32401, 169236), Affine(64801, 105192));
  }

  lemma Power1296()
    ensures Sixfold(Affine(64801, 105192)) == Affine(155521, 164592)
  {
    SixfoldIs(Affine(64801, 105192), Affine(129601, 210384), Affine(194401, 82296), Affine(155521, 164592));
  }

  lemma Power7776()
    ensures Sixfold(Affine(155521, 164592)) == Affine(1, 54432)
  {
    SixfoldIs(Affine(155521, 164592), Affine(77761, 95904), Affine(1, 27216), Affine(1, 54432));
  }

  /** 7776 == 6^5 steps are a shift by 54432. */
  lemma ShiftPower()
    ensures Acts(Affine(1, 54432), 7776)
  {
    Power6();
    Power36();
    Power216();
    Power1296();
    Power7776();
    ActsOne();
    ActsSixfold(Affine(A, C), 1);
    ActsSixfold(Affine(14761, 14802), 6);
    ActsSixfold(Affine(166321, 56412), 36);
    ActsSixfold(Affine(64801, 105192), 216);
    ActsSixfold(Affine(155521, 164592), 1296);
  }

  lemma ShiftOnce(c: nat, n: nat, t: int)
    requires Acts(Affine(1, c), n) && Residue(t)
    ensures Iter(t, n) == (t + c) % M
  {
    assert At(Affine(1, c), t) == Iter(t, n);
  }

  lemma AddMod(x: int, y: int)
    ensures (x % M + y) % M == (x + y) % M
  {
    ModOfMod(x, y, 1);
  }

  lemma ShiftAgain(c: nat, n: nat, s: int, m: nat, x: int)
    requires Acts(Affine(1, c), n) && Residue(s) && Iter(s, m) == (s + x) % M
    ensures Iter(s, m + n) == (s + (x + c)) % M
  {
    IterAdds(s, m, n);
    IterResidue(s, m);
    ShiftOnce(c, n, Iter(s, m));
    AddMod(s + x, c);
  }

  /** Iterating a shift. */
  lemma {:induction false} ShiftTimes(c: nat, n: nat, s: int, k: nat)
    requires Acts(Affine(1, c), n) && Residue(s)
    ensures Iter(s, k * n) == (s + k * c) % M
  {
    if k > 0 {
      ShiftTimes(c, n, s, k - 1);
      ShiftAgain(c, n, s, (k - 1) * n, (k - 1) * c);
      OneMore(k, n);
      OneMore(k, c);
    }
  }

  lemma OneMore(k: int, n: int)
    ensures (k - 1) * n + n == k * n
  {
  }

  lemma ShiftBy(s: int, k: nat)
    requires Residue(s)
    ensures Iter(s, k * 7776) == (s + k * 54432) % M
  {
    ShiftPower();
    ShiftTimes(54432, 7776, s, k);
  }

  // ---------- the period ----------

  lemma {:induction false} ReturnRepeats(s: int, d: nat, k: nat)
    requires Iter(s, d) == s
    ensures Iter(s, k * d) == s
  {
    if k > 0 {
      ReturnRepeats(s, d, k - 1);
      IterAdds(s, (k - 1) * d, d);
      OneMore(k, d);
    }
  }

  lemma ReturnsDrop(s: int, d: nat, q: nat, r: nat)
    requires Iter(s, d) == s
    ensures Iter(s, q * d + r) == Iter(s, r)
  {
    ReturnRepeats(s, d, q);
    IterAdds(s, q * d, r);
  }

  lemma DivMod(n: nat, d: nat)
    requires d > 0
    ensures n == n / d * d + n % d && n / d >= 0
  {
  }

  lemma ReturnRemainder(s: int, d: nat, n: nat)
    requires d > 0 && Iter(s, d) == s && Iter(s, n) == s
    ensures Iter(s, n % d) == s
  {
    DivMod(n, d);
    ReturnsDrop(s, d, n / d, n % d);
  }

  /** The least positive number of steps from `s` back to `s`. */
  lemma {:induction false} LeastReturn(s: int, n: nat) returns (d: nat)
    requires n > 0 && Iter(s, n) == s
    ensures 0 < d <= n && Iter(s, d) == s
    ensures forall k :: 0 < k < d ==> Iter(s, k) != s
  {
    if k :| 0 < k < n && Iter(s, k) == s {
      d := LeastReturn(s, k);
    } else {
      d := n;
    }
  }

  lemma ExpandProduct(a: int, r: int, b: int, t: int, p: int)
    ensures (a * p + r) * (b * p + t) == (a * (b * p) + a * t + r * b) * p + r * t
  {
  }

  lemma ModProduct(x: nat, y: nat, p: nat)
    requires p > 0
    ensures (x * y) % p == ((x % p) * (y % p)) % p
  {
    var a, b, r, t := x / p, y / p, x % p, y % p;
    DivMod(x, p);
    DivMod(y, p);
    ExpandProduct(a, r, b, t, p);
    DropMultiple(a * (b * p) + a * t + r * b, p, r * t);
  }

  lemma DropMultiple(q: int, p: int, z: int)
    requires p > 0
    ensures (q * p + z) % p == z % p
  {
    var n := (q * p + z) / p;
    var k := z / p;
    assert q * p + z == n * p + (q * p + z) % p;
    assert z == k * p + z % p;
    assert (n - q - k) * p == z % p - (q * p + z) % p;
    assert -p < (n - q - k) * p < p;
    assert n - q - k == 0 by { BelowOne(n - q - k, p); }
  }

  lemma BelowOne(x: int, p: int)
    requires p > 0 && -p < x * p < p
    ensures x == 0
  {
    MulMono(1, x, p);
    MulMono(x, -1, p);
  }

  lemma MulMono(x: int, y: int, z: int)
    ensures x <= y && z >= 0 ==> x * z <= y * z
  {
  }

  /** Euclid's lemma for the primes of M. */
  lemma PrimeDivides(p: nat, k: nat, d: nat)
    requires p == 2 || p == 3 || p == 5
    requires k % p != 0 && (k * d) % p == 0
    ensures d % p == 0
  {
    ModProduct(k, d, p);
    SmallProducts(p, k % p, d % p);
  }

  lemma SmallProducts(p: nat, r: nat, t: nat)
    requires p == 2 || p == 3 || p == 5
    requires 0 < r < p && t < p && (r * t) % p == 0
    ensures t == 0
  {
    assert r == 1 ==> r * t == t;
    assert r == 2 ==> r * t == 2 * t;
    assert r == 3 ==> r * t == 3 * t;
    assert r == 4 ==> r * t == 4 * t;
  }

  predicate Smooth(n: nat)
    decreases n
  {
    || n == 1
    || (n > 1 && ((n % 2 == 0 && Smooth(n / 2)) || (n % 3 == 0 && Smooth(n / 3)) || (n % 5 == 0 && Smooth(n / 5))))
  }

  lemma SplitFactor(p: nat, k: nat, d: nat, n: nat)
    requires (p == 2 || p == 3 || p == 5) && k * d == n && n % p == 0 && k % p != 0
    ensures k * (d / p) == n / p
  {
    PrimeDivides(p, k, d);
    var e := d / p;
    assert d == e * p;
    assert n == (k * e) * p;
  }

  /** A divisor of a 5-smooth number that 2, 3 and 5 do not divide is 1. */
  lemma {:induction false} SmoothDivisor(k: nat, d: nat, n: nat)
    requires Smooth(n) && k * d == n && k % 2 != 0 && k % 3 != 0 && k % 5 != 0
    ensures k == 1
    decreases n
  {
    if n == 1 {
      MulMono(2, k, d);
    } else {
      var p := if n % 2 == 0 && Smooth(n / 2) then 2 else if n % 3 == 0 && Smooth(n / 3) then 3 else 5;
      SplitFactor(p, k, d, n);
      SmoothDivisor(k, d / p, n / p);
    }
  }

  lemma MIsSmooth()
    ensures Smooth(M)
  {
    assert Smooth(15) && Smooth(45) && Smooth(135) && Smooth(405) && Smooth(1215) && Smooth(3645);
    assert Smooth(7290) && Smooth(14580) && Smooth(29160) && Smooth(58320) && Smooth(116640);
  }

  lemma ShiftMoves(s: int, c: int)
    requires Residue(s) && 0 < c < M
    ensures (s + c) % M != s
  {
    if s + c >= M { AddMultiple(s + c - M, 1); }
  }

  lemma PowerReturns(s: int, n: nat, k: nat, q: nat)
    requires Residue(s) && n == k * 7776 && k * 54432 == q * M
    ensures Iter(s, n) == s
  {
    ShiftBy(s, k);
    AddMultiple(s, q);
  }

  lemma PowerMoves(s: int, n: nat, k: nat, q: nat, c: nat)
    requires Residue(s) && n == k * 7776 && k * 54432 == q * M + c && 0 < c < M
    ensures Iter(s, n) != s
  {
    ShiftBy(s, k);
    AddMultiple(s + c, q);
    ShiftMoves(s, c);
  }

  lemma MStepsReturn(s: int)
    requires Residue(s)
    ensures Iter(s, M) == s
  {
    PowerReturns(s, M, 30, 7);
  }

  /** M/2, M/3 and M/5 steps shift by a non-zero amount: none of them has a fixed point. */
  lemma ProperPowersMove(s: int, p: nat)
    requires Residue(s) && (p == 2 || p == 3 || p == 5)
    ensures Iter(s, M / p) != s
  {
    if p == 2 {
      PowerMoves(s, M / p, 15, 3, 116640);
    } else if p == 3 {
      PowerMoves(s, M / p, 10, 2, 77760);
    } else {
      PowerMoves(s, M / p, 6, 1, 93312);
    }
  }

  lemma CofactorSplit(k: nat, d: nat, p: nat)
    requires (p == 2 || p == 3 || p == 5) && k * d == M && k % p == 0
    ensures k / p * d == M / p
  {
    var q := k / p;
    assert k == p * q;
    assert p * (q * d) == k * d;
  }

  /** A return time cannot divide M/p for a prime p of M. */
  lemma ProperReturn(s: int, k: nat, d: nat, p: nat)
    requires Residue(s) && k * d == M && (p == 2 || p == 3 || p == 5) && k % p == 0
    ensures Iter(s, d) != s
  {
    CofactorSplit(k, d, p);
    ProperPowersMove(s, p);
    if Iter(s, d) == s {
      ReturnRepeats(s, d, k / p);
    }
  }

  /** A return time that divides M is M itself. */
  lemma ReturnDividingM(s: int, k: nat, d: nat)
    requires Residue(s) && k * d == M && Iter(s, d) == s
    ensures d == M
  {
    if k % 2 == 0 {
      ProperReturn(s, k, d, 2);
    } else if k % 3 == 0 {
      ProperReturn(s, k, d, 3);
    } else if k % 5 == 0 {
      ProperReturn(s, k, d, 5);
    } else {
      MIsSmooth();
      SmoothDivisor(k, d, M);
    }
  }

  lemma LeastReturnIsM(s: int) returns (d: nat)
    requires Residue(s)
    ensures d == M && Iter(s, M) == s && forall k :: 0 < k < M ==> Iter(s, k) != s
  {
    MStepsReturn(s);
    d := LeastReturn(s, M);
    var k := CofactorOf(s, d, M);
    ReturnDividingM(s, k, d);
  }

  /** The least return time divides every return time. */
  lemma CofactorOf(s: int, d: nat, n: nat) returns (k: nat)
    requires 0 < d <= n && Iter(s, d) == s && Iter(s, n) == s
    requires forall j :: 0 < j < d ==> Iter(s, j) != s
    ensures k * d == n
  {
    ReturnRemainder(s, d, n);
    DivMod(n, d);
    k := n / d;
  }

  /** Full period: from any residue, `n` steps come back exactly for the multiples of 233280. */
  lemma FullPeriod(s: int, n: nat)
    requires Residue(s)
    ensures Iter(s, n) == s <==> n % M == 0
  {
    var d := LeastReturnIsM(s);
    if Iter(s, n) == s {
      ReturnRemainder(s, M, n);
    }
    if n % M == 0 {
      DivMod(n, M);
      ReturnRepeats(s, M, n / M);
    }
  }

  /** Two points of an orbit coincide exactly when their distance is a multiple of the period. */
  lemma OrbitPoints(s: int, i: nat, j: nat)
    requires Residue(s)
    ensures Iter(s, i) == Iter(s, i + j) <==> j % M == 0
  {
    IterResidue(s, i);
    IterAdds(s, i, j);
    FullPeriod(Iter(s, i), j);
  }

  /** The step is a permutation of the residues. */
  lemma StepIsBijection(s: int, t: int)
    requires Residue(s) && Residue(t)
    ensures Step(s) == Step(t) ==> s == t
    ensures Residue(Iter(s, M - 1)) && Step(Iter(s, M - 1)) == s
  {
    FullPeriod(s, M);
    FullPeriod(t, M);
    IterResidue(s, M - 1);
    if Step(s) == Step(t) {
      assert Iter(s, 1) == Step(Iter(s, 0)) && Iter(t, 1) == Step(Iter(t, 0));
      IterAdds(s, 1, M - 1);
      IterAdds(t, 1, M - 1);
    }
  }

  /** For any integer seed: all draws are non-negative exactly when the first dividend is, or is a multiple of M. */
  lemma DrawsNonNegativeIff(seed: int)
    ensures (forall n: nat :: n > 0 ==> 0 <= Iter(seed, n)) <==> (seed * A + C >= 0 || (-(seed * A + C)) % M == 0)
  {
    assert Iter(seed, 1) == Step(Iter(seed, 0));
    if seed * A + C >= 0 || (-(seed * A + C)) % M == 0 {
      forall n: nat | n > 0
        ensures 0 <= Iter(seed, n)
      {
        IterAdds(seed, 1, n - 1);
        IterResidue(Iter(seed, 1), n - 1);
      }
    }
  }

  // ---------- the flowers ----------

  /** Durations and delays are in units of 1/M seconds, margins in hundredths of a pixel. */
  datatype Flower = Flower(size: int, duration: int, delay: int, isSprout: bool, margin: int)

  /** `44 + Math.round(r / M * 46)`. */
  function SizeOf(r: int): int {
    44 + (92 * r + M) / (2 * M)
  }

  /** The flower drawn by the four steps from state `s`. */
  function FlowerFrom(s: int): Flower {
    var size := SizeOf(Iter(s, 1));
    Flower(size, 6 * M + 5 * Iter(s, 2), -11 * Iter(s, 3), 100 * Iter(s, 4) < 12 * M, -22 * size)
  }

  /** From a residue every flower is within the designed ranges. */
  lemma FlowerRanges(s: int)
    requires Residue(s)
    ensures var f := FlowerFrom(s);
            44 <= f.size <= 90 && 6 * M <= f.duration < 11 * M && -11 * M < f.delay <= 0
              && -22 * 90 <= f.margin <= -22 * 44
  {
    IterResidue(s, 1);
    IterResidue(s, 2);
    IterResidue(s, 3);
  }

  lemma FourfoldMultiple(d: nat)
    ensures 4 * d % M == 0 <==> d % 58320 == 0
  {
    DivMod(d, 58320);
    var q, r := d / 58320, d % 58320;
    assert 4 * d == q * M + 4 * r;
    AddMultiple(4 * r, q);
  }

  // ---------- seeds that are not residues ----------

  lemma RemainderIs(x: int)
    ensures -M < Remainder(x, M) < M && Remainder(x, M) % M == x % M
  {
    if x < 0 {
      var r := (-x) % M;
      assert x == -(-x / M) * M - r;
      AddMultiple(-r, -(-x / M));
    }
  }

  lemma StepModulo(s: int)
    ensures -M < Step(s) < M && Step(s) % M == Step(s % M)
  {
    RemainderIs(s * A + C);
    ModOfMod(s, C, A);
  }

  /** Modulo M every seed moves like its residue. */
  lemma {:induction false} IterModulo(seed: int, n: nat)
    ensures Iter(seed, n) % M == Iter(seed % M, n) && (n > 0 ==> -M < Iter(seed, n) < M)
  {
    if n > 0 {
      IterModulo(seed, n - 1);
      StepModulo(Iter(seed, n - 1));
    }
  }

  function Visited(s: int, n: nat): (states: set<int>) {
    if n == 0 then {} else Visited(s, n - 1) + {Iter(s, n - 1)}
  }

  lemma {:induction false} VisitedAt(s: int, n: nat, x: int) returns (k: nat)
    requires x in Visited(s, n)
    ensures k < n && Iter(s, k) == x
  {
    k := n - 1;
    if x in Visited(s, n - 1) { k := VisitedAt(s, n - 1, x); }
  }

  lemma ShortDistance(d: nat)
    requires 0 < d < M
    ensures d % M != 0
  {
  }

  lemma DistinctWithin(s: int, j: nat, n: nat)
    requires Residue(s) && j < n < M
    ensures Iter(s, j) != Iter(s, n)
  {
    OrbitPoints(s, j, n - j);
    ShortDistance(n - j);
  }

  lemma {:induction false} NotVisited(s: int, n: nat, x: int)
    requires forall j :: 0 <= j < n ==> Iter(s, j) != x
    ensures x !in Visited(s, n)
  {
    if n > 0 { NotVisited(s, n - 1, x); }
  }

  /** Within a period no state is visited twice. */
  lemma NotVisitedYet(s: int, n: nat)
    requires Residue(s) && n < M
    ensures Iter(s, n) !in Visited(s, n)
  {
    forall j | 0 <= j < n
      ensures Iter(s, j) != Iter(s, n)
    {
      DistinctWithin(s, j, n);
    }
    NotVisited(s, n, Iter(s, n));
  }

  lemma {:induction false} VisitedCount(s: int, n: nat)
    requires Residue(s) && n <= M
    ensures |Visited(s, n)| == n && forall x :: x in Visited(s, n) ==> Residue(x)
  {
    if n > 0 {
      VisitedCount(s, n - 1);
      NotVisitedYet(s, n - 1);
      IterResidue(s, n - 1);
    }
  }

  lemma {:induction false} FewBelow(states: set<int>, m: nat)
    requires forall x :: x in states ==> 0 <= x < m
    ensures |states| <= m
  {
    if m > 0 {
      FewBelow(states - {m - 1}, m - 1);
    } else {
      assert forall x :: x !in states;
    }
  }

  /** Every residue is reached from every other within a period. */
  lemma Reaches(s: int, t: int) returns (k: nat)
    requires Residue(s) && Residue(t)
    ensures k < M && Iter(s, k) == t
  {
    VisitedCount(s, M);
    if t !in Visited(s, M) {
      FewBelow(Visited(s, M) + {t}, M);
      assert false;
    }
    k := VisitedAt(s, M, t);
  }

  lemma ReachesLater(s: int, t: int) returns (k: nat)
    requires Residue(s) && Residue(t)
    ensures 0 < k <= M && Iter(s, k) == t
  {
    k := Reaches(s, t);
    if k == 0 {
      FullPeriod(s, M);
      k := M;
    }
  }

  lemma PassesZero(seed: int, k: nat)
    requires 0 < k && Iter(seed % M, k) == 0
    ensures Iter(seed, k) == 0
  {
    IterModulo(seed, k);
  }

  /** Whatever the seed, negative ones included, from draw M on the states are residues. */
  lemma EverySeedSettles(seed: int, n: nat)
    requires n >= M
    ensures Residue(Iter(seed, n))
  {
    var k := ReachesLater(seed % M, 0);
    PassesZero(seed, k);
    IterResidue(0, n - k);
    IterAdds(seed, k, n - k);
  }

  /** For any integer seed, flowers `i` and `j` start from the same state exactly when their distance is a multiple of
      58320 and the state of the earlier one is a residue, as all are from a residue on: the first 58320 flowers start
      from distinct states, and the field then repeats. */
  lemma FlowersRepeatIff(seed: int, i: nat, j: nat)
    requires i < j
    ensures Iter(seed, 4 * i) == Iter(seed, 4 * j) <==> (j - i) % 58320 == 0 && Residue(Iter(seed, 4 * i))
    ensures (j - i) % 58320 == 0 && Residue(Iter(seed, 4 * i)) ==>
              FlowerFrom(Iter(seed, 4 * i)) == FlowerFrom(Iter(seed, 4 * j))
  {
    var s, d := Iter(seed, 4 * i), 4 * (j - i);
    IterAdds(seed, 4 * i, d);
    FourfoldMultiple(j - i);
    if Residue(s) {
      FullPeriod(s, d);
    } else if Iter(s, d) == s {
      IterModulo(s, d);
      FullPeriod(s % M, d);
      EverySeedSettles(s, d);
    }
  }

  /** What flower `i` shows, by the draws of the whole field: it takes four of them in turn, for the size, rounded to
      the nearest pixel with halves upward, the duration, the delay, and whether it is a sprout, as 12 of 100 are; the
      margin goes with the size. */
  lemma FlowerShows(seed: int, i: nat)
    ensures var f := FlowerFrom(Iter(seed, 4 * i));
            && -M <= 2 * (46 * Iter(seed, 4 * i + 1) - M * (f.size - 44)) < M
            && f.duration == 6 * M + 5 * Iter(seed, 4 * i + 2)
            && f.delay == -11 * Iter(seed, 4 * i + 3)
            && (f.isSprout <==> 25 * Iter(seed, 4 * i + 4) < 3 * M)
            && f.margin == -22 * f.size
  {
    FourSteps(seed, 4 * i);
    SizeIsNearest(Iter(seed, 4 * i + 1));
  }

  lemma SizeIsNearest(r: int)
    ensures -M <= 2 * (46 * r - M * (SizeOf(r) - 44)) < M
  {
  }

  class Generator {
    var s: int

    constructor (seed: int)
      ensures s == seed
    {
      s := seed;
    }

    /** The numerator over M of the number `rand` returns. */
    method Rand() returns (r: int)
      modifies this
      ensures r == s == Step(old(s))
    {
      s := Remainder(s * A + C, M);
      r := s;
    }
  }

  method BuildFlowers(count: int, seed: int) returns (flowers: seq<Flower>)
    ensures |flowers| == if count > 0 then count else 0
    ensures forall i :: 0 <= i < |flowers| ==> flowers[i] == FlowerFrom(Iter(seed, 4 * i))
  {
    var g := new Generator(seed);
    flowers := [];
    var i := 0;
    while i < count
      invariant 0 <= i && |flowers| == i && (count <= 0 ==> i == 0) && (count > 0 ==> i <= count)
      invariant g.s == Iter(seed, 4 * i)
      invariant forall k :: 0 <= k < i ==> flowers[k] == FlowerFrom(Iter(seed, 4 * k))
    {
      var r1 := g.Rand();
      var size := 44 + (92 * r1 + M) / (2 * M);
      var r2 := g.Rand();
      var r3 := g.Rand();
      var r4 := g.Rand();
      FourSteps(seed, 4 * i);
      flowers := flowers + [Flower(size, 6 * M + 5 * r2, -11 * r3, 100 * r4 < 12 * M, -22 * size)];
      i := i + 1;
    }
  }

  lemma FourSteps(seed: int, n: nat)
    ensures var s := Iter(seed, n);
            && Iter(s, 1) == Step(s) == Iter(seed, n + 1)
            && Iter(s, 2) == Step(Step(s)) == Iter(seed, n + 2)
            && Iter(s, 3) == Step(Step(Step(s))) == Iter(seed, n + 3)
            && Iter(s, 4) == Step(Step(Step(Step(s)))) == Iter(seed, n + 4)
  {
    var s := Iter(seed, n);
    assert Iter(s, 1) == Step(Iter(s, 0));
    assert Iter(s, 2) == Step(Iter(s, 1));
    assert Iter(s, 3) == Step(Iter(s, 2));
    assert Iter(s, 4) == Step(Iter(s, 3));
    IterAdds(seed, n, 1);
    IterAdds(seed, n, 2);
    IterAdds(seed, n, 3);
    IterAdds(seed, n, 4);
  }
}
