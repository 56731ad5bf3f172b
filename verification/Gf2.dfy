/**
Polynomials over the two-element field. A polynomial is the set of its exponents; a machine word
is the set of positions of its one bits, which is the same thing.
*/
module Gf2 {

  type Poly = set<nat>

  function Add(a: Poly, b: Poly): (c: Poly)
    ensures forall i :: i in c <==> (i in a) != (i in b)
  {
    (a - b) + (b - a)
  }

  function Shift(a: Poly, k: nat): (b: Poly)
    ensures forall i: nat :: i in b <==> i >= k && i - k in a
  {
    var b := set i | i in a :: i + k;
    assert forall i: nat :: i in b <==> i >= k && i - k in a by {
      forall i: nat | i >= k && i - k in a ensures i in b {
        var j := i - k;
        assert j + k in b;
      }
    }
    b
  }

  predicate Below(a: Poly, n: nat) {
    forall i :: i in a ==> i < n
  }

  /** The product with the quotient whose coefficients, lowest first, are `q`. */
  function Product(q: seq<bool>, p: Poly): Poly {
    if q == [] then {} else Add(if q[0] then p else {}, Shift(Product(q[1..], p), 1))
  }

  function AddCoefficients(q: seq<bool>, r: seq<bool>): seq<bool> {
    if q == [] then r else if r == [] then q else [q[0] != r[0]] + AddCoefficients(q[1..], r[1..])
  }

  ghost predicate Multiple(a: Poly, p: Poly) {
    exists q :: a == Product(q, p)
  }

  ghost predicate Congruent(a: Poly, b: Poly, p: Poly) {
    Multiple(Add(a, b), p)
  }

  /** `r` is what is left of `a` after division by `p`, whose degree is `n`. */
  ghost predicate IsRemainder(r: Poly, a: Poly, p: Poly, n: nat) {
    Below(r, n) && Congruent(r, a, p)
  }

  lemma {:induction false} ProductIsAdditive(q: seq<bool>, r: seq<bool>, p: Poly)
    ensures Product(AddCoefficients(q, r), p) == Add(Product(q, p), Product(r, p))
  {
    if q != [] && r != [] {
      ProductIsAdditive(q[1..], r[1..], p);
      var sum := AddCoefficients(q, r);
      assert sum[1..] == AddCoefficients(q[1..], r[1..]);
    }
  }

  lemma CongruentReflexive(a: Poly, p: Poly)
    ensures Congruent(a, a, p)
  {
    assert Add(a, a) == Product([], p);
  }

  lemma CongruentTransitive(a: Poly, b: Poly, c: Poly, p: Poly)
    requires Congruent(a, b, p) && Congruent(b, c, p)
    ensures Congruent(a, c, p)
  {
    var q :| Add(a, b) == Product(q, p);
    var r :| Add(b, c) == Product(r, p);
    ProductIsAdditive(q, r, p);
    assert Add(a, c) == Product(AddCoefficients(q, r), p);
  }

  lemma CongruentShift(a: Poly, b: Poly, p: Poly)
    requires Congruent(a, b, p)
    ensures Congruent(Shift(a, 1), Shift(b, 1), p)
  {
    var q :| Add(a, b) == Product(q, p);
    assert ([false] + q)[1..] == q;
    assert Add(Shift(a, 1), Shift(b, 1)) == Product([false] + q, p);
  }

  lemma CongruentAdd(a: Poly, b: Poly, c: Poly, p: Poly)
    requires Congruent(a, b, p)
    ensures Congruent(Add(a, c), Add(b, c), p)
  {
    assert Add(Add(a, c), Add(b, c)) == Add(a, b);
  }

  lemma ModulusIsZero(a: Poly, p: Poly)
    ensures Congruent(Add(a, p), a, p)
  {
    assert [true][1..] == [];
    assert Product([true], p) == Add(p, Shift({}, 1));
    assert Add(Add(a, p), a) == Product([true], p);
  }

  /** A product by a nonzero quotient has a term at or above the degree of the modulus. */
  lemma {:induction false} ProductDegree(q: seq<bool>, p: Poly, n: nat) returns (degree: nat)
    requires n in p && Below(p, n + 1) && true in q
    ensures degree >= n && degree in Product(q, p) && Below(Product(q, p), degree + 1)
  {
    if true in q[1..] {
      var rest := ProductDegree(q[1..], p, n);
      degree := rest + 1;
    } else {
      ZeroProduct(q[1..], p);
      degree := n;
    }
  }

  lemma {:induction false} ZeroProduct(q: seq<bool>, p: Poly)
    requires true !in q
    ensures Product(q, p) == {}
  {
    if q != [] {
      ZeroProduct(q[1..], p);
    }
  }

  /** Division leaves one remainder only. */
  lemma RemainderIsUnique(r: Poly, s: Poly, a: Poly, p: Poly, n: nat)
    requires n in p && Below(p, n + 1)
    requires IsRemainder(r, a, p, n) && IsRemainder(s, a, p, n)
    ensures r == s
  {
    assert Add(s, a) == Add(a, s);
    CongruentTransitive(r, a, s, p);
    var q :| Add(r, s) == Product(q, p);
    if true in q {
      var degree := ProductDegree(q, p, n);
      assert false;
    } else {
      ZeroProduct(q, p);
      assert forall i :: i !in Add(r, s);
    }
  }

  predicate Coefficient(bits: seq<bool>, i: nat) {
    i < |bits| && bits[|bits| - 1 - i]
  }

  /** The polynomial whose coefficients are the bits of a message, highest first. */
  function Message(bits: seq<bool>): (m: Poly)
    ensures forall i: nat :: i in m <==> Coefficient(bits, i)
  {
    set i: nat | i < |bits| && Coefficient(bits, i)
  }
}
