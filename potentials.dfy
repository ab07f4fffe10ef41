/**
 * Pair potentials in reduced units (excercise4_potentials/potentials.py): the
 * Lennard-Jones potential with well depth and equilibrium parameter 1, the Morse
 * potential with dissociation energy 1, and the closed registry of named
 * potentials the optimisation scripts accept on the command line.
 *
 * `exp` is not defined here; it is a parameter, and a lemma that needs a fact
 * about it states that fact as a precondition.
 */
module Potentials {

  /** `r**n` for a natural exponent. */
  function Pow(r: real, n: nat): real
  {
    if n == 0 then 1.0 else r * Pow(r, n - 1)
  }

  lemma {:induction false} PowPositive(r: real, n: nat)
    requires r > 0.0
    ensures Pow(r, n) > 0.0
  {
    if n > 0 {
      PowPositive(r, n - 1);
      ProductPositive(r, Pow(r, n - 1));
    }
  }

  lemma {:induction false} PowAboveOne(r: real, n: nat)
    requires r > 1.0 && n > 0
    ensures Pow(r, n) > 1.0
  {
    if n > 1 {
      PowAboveOne(r, n - 1);
      ScaleAboveOne(r, Pow(r, n - 1));
    }
  }

  lemma {:induction false} PowBelowOne(r: real, n: nat)
    requires 0.0 < r < 1.0 && n > 0
    ensures 0.0 < Pow(r, n) < 1.0
  {
    if n > 1 {
      PowBelowOne(r, n - 1);
      ScaleBelowOne(r, Pow(r, n - 1));
    }
  }

  /** An even power depends on the square only, so it ignores the sign. */
  lemma PowEven(r: real, n: nat)
    ensures Pow(r, 2 * n) == Pow(r * r, n)
    ensures Pow(-r, 2 * n) == Pow(r, 2 * n)
  {
    var nr := -r;
    PowOfSquare(r, n);
    PowOfSquare(nr, n);
    assert nr * nr == r * r;
    SameBase(nr * nr, r * r, n);
    assert Pow(nr, 2 * n) == Pow(nr * nr, n);
  }

  lemma SameBase(a: real, b: real, n: nat)
    requires a == b
    ensures Pow(a, n) == Pow(b, n)
  {
  }

  lemma {:induction false} PowOfSquare(r: real, n: nat)
    ensures Pow(r, 2 * n) == Pow(r * r, n)
  {
    if n > 0 {
      PowOfSquare(r, n - 1);
      PowTwoMore(r, 2 * (n - 1));
    }
  }

  lemma PowSucc(r: real, m: nat)
    ensures Pow(r, m + 1) == r * Pow(r, m)
  {
  }

  /** Two more factors of r: r**(m+2) = (r*r) * r**m. */
  lemma PowTwoMore(r: real, m: nat)
    ensures Pow(r, m + 2) == (r * r) * Pow(r, m)
  {
    PowSucc(r, m);
    PowSucc(r, m + 1);
    assert Pow(r, m + 2) == r * (r * Pow(r, m));
  }

  /** r**6 is positive for r != 0, above 1 for r > 1, below 1 for 0 < r < 1, and 1 at r = 1. */
  lemma Pow6Facts(r: real)
    ensures r != 0.0 ==> Pow(r, 6) > 0.0
    ensures r > 1.0 ==> Pow(r, 6) > 1.0
    ensures 0.0 < r < 1.0 ==> Pow(r, 6) < 1.0
    ensures (r == 1.0 || r == -1.0) ==> Pow(r, 6) == 1.0
  {
    PowEven(r, 3);
    if r > 0.0 {
      PowPositive(r, 6);
    } else if r < 0.0 {
      PowPositive(-r, 6);
    }
    if r > 1.0 {
      PowAboveOne(r, 6);
    }
    if 0.0 < r < 1.0 {
      PowBelowOne(r, 6);
    }
    assert Pow(1.0, 6) == 1.0;
  }

  lemma ProductPositive(a: real, b: real)
    requires a > 0.0 && b > 0.0
    ensures a * b > 0.0
  {
  }

  /** a > 1 and b > 1 give a * b > a > 1. */
  lemma ScaleAboveOne(a: real, b: real)
    requires a > 1.0 && b > 1.0
    ensures a * b > a && a * b > 1.0
  {
    ProductPositive(a, b - 1.0);
    assert a * b - a == a * (b - 1.0);
  }

  /** 0 < a < 1 and 0 < b < 1 give 0 < a * b < a. */
  lemma ScaleBelowOne(a: real, b: real)
    requires 0.0 < a < 1.0 && 0.0 < b < 1.0
    ensures 0.0 < a * b < a
  {
    ProductPositive(a, b);
    ProductPositive(a, 1.0 - b);
    assert a - a * b == a * (1.0 - b);
  }

  lemma SquareZero(x: real)
    ensures x * x >= 0.0
    ensures x != 0.0 ==> x * x > 0.0
    ensures x == 0.0 ==> x * x == 0.0
  {
    if x > 0.0 {
      ProductPositive(x, x);
    } else if x < 0.0 {
      ProductPositive(-x, -x);
      assert x * x == (-x) * (-x);
    }
  }

  /** A factor of a product whose other factor is positive has the product's sign. */
  lemma SignFromProduct(x: real, p: real, q: real)
    requires p > 0.0 && x * p == q
    ensures q >= 0.0 ==> x >= 0.0
    ensures q > 0.0 ==> x > 0.0
    ensures q < 0.0 ==> x < 0.0
    ensures q <= 0.0 ==> x <= 0.0
  {
    if x < 0.0 {
      ProductPositive(-x, p);
    } else if x > 0.0 {
      ProductPositive(x, p);
    }
  }

  lemma RationalIdentities(u: real)
    requires u > 0.0
    ensures u * u > 0.0 && 4.0 * (u * u) > 0.0
    ensures (1.0 / (u * u) - 1.0 / u) * (u * u) == 1.0 - u
    ensures (1.0 / (u * u) - 1.0 / u + 0.25) * (4.0 * (u * u)) == (u - 2.0) * (u - 2.0)
  {
    ProductPositive(u, u);
    ProductPositive(4.0, u * u);
  }

  /**
   * The sign of x = 1/u^2 - 1/u = (1 - u)/u^2 for u = r^6 > 0, stated through the
   * identity x * u^2 = 1 - u: negative above 1, positive below 1, zero at 1.
   */
  lemma WellSign(u: real, x: real)
    requires u * u > 0.0
    requires x * (u * u) == 1.0 - u
    ensures u > 1.0 ==> x < 0.0
    ensures u < 1.0 ==> x > 0.0
    ensures u == 1.0 ==> x == 0.0
  {
    SignFromProduct(x, u * u, 1.0 - u);
  }

  /**
   * The depth of the well: with y = x + 1/4 and d = u - 2, the identity
   * y * 4u^2 = d^2 makes y non-negative, and zero when d is.
   */
  lemma WellDepth(d: real, y: real, p: real)
    requires p > 0.0
    requires y * p == d * d
    ensures y >= 0.0
    ensures d == 0.0 ==> y == 0.0
  {
    SquareZero(d);
    if y < 0.0 {
      ProductPositive(-y, p);
    } else if y > 0.0 {
      ProductPositive(y, p);
    }
  }

  /**
   * `lennard_jones(r) = 1/(r**6)**2 - 1/r**6`. numpy divides by r**6, so the model
   * is defined for r != 0 only. It vanishes at unit distance, is repulsive inside
   * it and attractive outside it, and never drops below the well depth -1/4,
   * which it reaches where r**6 = 2.
   */
  function LennardJones(r: real): (v: real)
    requires r != 0.0
    ensures r > 1.0 ==> v < 0.0
    ensures 0.0 < r < 1.0 ==> v > 0.0
    ensures (r == 1.0 || r == -1.0) ==> v == 0.0
    ensures v >= -0.25
    ensures Pow(r, 6) == 2.0 ==> v == -0.25
  {
    Pow6Facts(r);
    RationalIdentities(Pow(r, 6));
    WellSign(Pow(r, 6), 1.0 / (Pow(r, 6) * Pow(r, 6)) - 1.0 / Pow(r, 6));
    WellDepth(Pow(r, 6) - 2.0, 1.0 / (Pow(r, 6) * Pow(r, 6)) - 1.0 / Pow(r, 6) + 0.25, 4.0 * (Pow(r, 6) * Pow(r, 6)));
    1.0 / (Pow(r, 6) * Pow(r, 6)) - 1.0 / Pow(r, 6)
  }

  /** At r = sqrt 2, r**6 = 8 and the Lennard-Jones energy is 1/2^6 - 1/2^3. */
  lemma LennardJonesAtRootTwo(s: real)
    requires s >= 0.0 && s * s == 2.0
    ensures s != 0.0 && LennardJones(s) == 1.0 / 64.0 - 1.0 / 8.0
  {
    PowEven(s, 3);
    assert Pow(s * s, 3) == Pow(2.0, 3);
    assert Pow(s, 6) == 8.0;
  }

  /** `morse(r, re) = (1 - exp(-(r - re)))**2`: a square, so never negative. */
  function Morse(r: real, re: real, exp: real -> real): (v: real)
    ensures v >= 0.0
    ensures exp(-(r - re)) == 1.0 ==> v == 0.0
  {
    SquareZero(1.0 - exp(-(r - re)));
    (1.0 - exp(-(r - re))) * (1.0 - exp(-(r - re)))
  }

  /** The Morse potential is zero at its equilibrium distance, given exp(0) = 1. */
  lemma MorseAtEquilibrium(re: real, exp: real -> real)
    requires exp(0.0) == 1.0
    ensures Morse(re, re, exp) == 0.0
  {
    assert -(re - re) == 0.0;
  }

  /** The entries of the `potentials` dictionary: a closed enumeration. */
  datatype PotentialKind = LennardJonesKind | MorseKind(re: real)

  const Registry: map<string, PotentialKind> :=
    map["lennard-jones" := LennardJonesKind, "morse-1" := MorseKind(1.0), "morse-2" := MorseKind(2.0)]

  /** The registry has exactly three keys, and the Morse entries fix re to 1 and 2. */
  lemma RegistryEntries()
    ensures Registry.Keys == {"lennard-jones", "morse-1", "morse-2"}
    ensures Registry["lennard-jones"] == LennardJonesKind
    ensures Registry["morse-1"] == MorseKind(1.0) && Registry["morse-2"] == MorseKind(2.0)
  {
  }

  /**
   * The callable a registry entry stands for. The Lennard-Jones callable is
   * undefined at distance 0; the Morse callables are defined everywhere.
   */
  function AsFunction(k: PotentialKind, exp: real -> real): (f: real --> real)
    ensures forall r :: f.requires(r) <==> (k.LennardJonesKind? ==> r != 0.0)
    ensures forall r :: k.LennardJonesKind? && r != 0.0 ==> f(r) == LennardJones(r)
    ensures forall r :: k.MorseKind? ==> f(r) == Morse(r, k.re, exp)
  {
    if k.LennardJonesKind? then LennardJones else (r: real) => Morse(r, k.re, exp)
  }
}
