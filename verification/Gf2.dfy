/** Polynomials over GF(2), as far as a cyclic redundancy check needs them.

A polynomial is the finite set of the exponents whose coefficient is 1, so that two
polynomials are equal exactly when they are equal as sets.
*/
module Gf2 {

  type Poly = set<nat>

  /** Addition, which is also subtraction: coefficients add modulo 2. */
  function Add(p: Poly, q: Poly): Poly {
    (p - q) + (q - p)
  }

  /** Multiplication by x^k. */
  function Shift(p: Poly, k: nat): (r: Poly)
    ensures forall e: nat :: e in r <==> k <= e && e - k in p
  {
    var r := set e | e in p :: Raise(e, k);
    assert forall e | e in p :: Raise(e, k) in r;
    r
  }

  function Raise(e: nat, k: nat): nat {
    e + k
  }

  /** The polynomial with all coefficients below x^n. */
  function Below(n: nat): (r: Poly)
    ensures forall e: nat :: e in r <==> e < n
  {
    if n == 0 then {} else Below(n - 1) + {n - 1}
  }

  /** The product of g and the polynomial whose coefficients are `bits`, highest power first. */
  function Times(bits: seq<bool>, g: Poly): Poly {
    if bits == [] then {}
    else
      var n := |bits| - 1;
      Add(Shift(Times(bits[..n], g), 1), if bits[n] then g else {})
  }

  /** The polynomial whose coefficients are `bits`, highest power first. */
  function FromBits(bits: seq<bool>): Poly {
    Times(bits, {0})
  }

  /** r is congruent to p modulo g. */
  ghost predicate Congruent(p: Poly, r: Poly, g: Poly) {
    exists bits: seq<bool> :: p == Add(Times(bits, g), r)
  }

  /** Every exponent of p is below d. */
  ghost predicate DegreeBelow(p: Poly, d: nat) {
    forall e :: e in p ==> e < d
  }

  /** d is the degree of g. */
  ghost predicate HasDegree(g: Poly, d: nat) {
    d in g && DegreeBelow(g, d + 1)
  }

  /** Term by term exclusive or of two bit strings of equal length. */
  function Xor(a: seq<bool>, b: seq<bool>): (c: seq<bool>)
    requires |a| == |b|
    ensures |c| == |a|
    ensures forall i :: 0 <= i < |c| ==> c[i] == (a[i] != b[i])
  {
    seq(|a|, i requires 0 <= i < |a| => a[i] != b[i])
  }

  /** `FromBits` does read its argument as a list of coefficients. */
  lemma {:induction false} FromBitsCoefficients(bits: seq<bool>, e: nat)
    ensures e in FromBits(bits) <==> e < |bits| && bits[|bits| - 1 - e]
  {
    if bits != [] && e > 0 {
      FromBitsCoefficients(bits[..|bits| - 1], e - 1);
    }
  }

  lemma {:induction false} TimesXor(a: seq<bool>, b: seq<bool>, g: Poly)
    requires |a| == |b|
    ensures Times(Xor(a, b), g) == Add(Times(a, g), Times(b, g))
  {
    if a != [] {
      var n := |a| - 1;
      TimesXor(a[..n], b[..n], g);
      assert Xor(a, b)[..n] == Xor(a[..n], b[..n]);
    }
  }

  /** Leading zeros do not matter. */
  lemma {:induction false} TimesLeadingZero(bits: seq<bool>, g: Poly)
    ensures Times([false] + bits, g) == Times(bits, g)
  {
    if bits != [] {
      var n := |bits| - 1;
      TimesLeadingZero(bits[..n], g);
      assert ([false] + bits)[..n + 1] == [false] + bits[..n];
    }
  }

  function Pad(bits: seq<bool>, n: nat): (r: seq<bool>)
    ensures |r| == n + |bits|
  {
    if n == 0 then bits else [false] + Pad(bits, n - 1)
  }

  lemma {:induction false} TimesPad(bits: seq<bool>, n: nat, g: Poly)
    ensures Times(Pad(bits, n), g) == Times(bits, g)
  {
    if n > 0 {
      TimesPad(bits, n - 1, g);
      TimesLeadingZero(Pad(bits, n - 1), g);
    }
  }

  /** Multiples of g are closed under addition. */
  lemma MultiplesAdd(a: seq<bool>, b: seq<bool>, g: Poly) returns (c: seq<bool>)
    ensures Times(c, g) == Add(Times(a, g), Times(b, g))
  {
    TimesPad(a, |b|, g);
    TimesPad(b, |a|, g);
    TimesXor(Pad(a, |b|), Pad(b, |a|), g);
    c := Xor(Pad(a, |b|), Pad(b, |a|));
  }

  /** A multiple of g of smaller degree than g is zero. */
  lemma {:induction false} MultipleDegree(bits: seq<bool>, g: Poly, d: nat)
    requires HasDegree(g, d)
    ensures Times(bits, g) == {} || exists e :: e in Times(bits, g) && d <= e
  {
    if bits != [] {
      var n := |bits| - 1;
      var p := Times(bits[..n], g);
      MultipleDegree(bits[..n], g, d);
      if p == {} {
        assert Shift(p, 1) == {};
        assert Times(bits, g) == if bits[n] then g else {};
      } else {
        var e :| e in p && d <= e;
        assert e + 1 in Shift(p, 1) && e + 1 !in g;
        assert e + 1 in Times(bits, g);
      }
    }
  }

  /** Remainders are unique: this is what makes "the remainder" of a division meaningful. */
  lemma RemainderUnique(p: Poly, r: Poly, s: Poly, g: Poly, d: nat)
    requires HasDegree(g, d) && DegreeBelow(r, d) && DegreeBelow(s, d)
    requires Congruent(p, r, g) && Congruent(p, s, g)
    ensures r == s
  {
    var a: seq<bool> :| p == Add(Times(a, g), r);
    var b: seq<bool> :| p == Add(Times(b, g), s);
    var c := MultiplesAdd(a, b, g);
    assert Times(c, g) == Add(r, s) by {
      forall e ensures e in Times(c, g) <==> e in Add(r, s) {
        assert e in p <==> e in Add(Times(a, g), r);
        assert e in p <==> e in Add(Times(b, g), s);
      }
    }
    MultipleDegree(c, g, d);
    assert Add(r, s) == {};
    forall e ensures e in r <==> e in s {
      assert e !in Add(r, s);
    }
  }

  lemma ShiftEmpty(p: Poly)
    ensures Shift(p, 1) == {} ==> p == {}
  {
    if p != {} {
      var e :| e in p;
      assert e + 1 in Shift(p, 1);
    }
  }

  /** When g has a constant term, x^k * p is a multiple of g only if p is one. */
  lemma {:induction false} CancelShift(p: Poly, k: nat, g: Poly)
    requires 0 in g && Congruent(Shift(p, k), {}, g)
    ensures Congruent(p, {}, g)
  {
    var bits: seq<bool> :| Shift(p, k) == Add(Times(bits, g), {});
    if k == 0 {
      assert Shift(p, k) == p;
    } else {
      if bits == [] {
        assert Shift(p, k - 1) == Add(Times([], g), {}) by {
          assert Shift(p, k) == Shift(Shift(p, k - 1), 1);
          ShiftEmpty(Shift(p, k - 1));
        }
      } else {
        var n := |bits| - 1;
        assert 0 !in Shift(p, k);
        assert !bits[n];
        var half := Times(bits[..n], g);
        assert Shift(p, k - 1) == Add(half, {}) by {
          forall e: nat ensures e in Shift(p, k - 1) <==> e in half {
            assert e + 1 in Shift(p, k) <==> e + 1 in Shift(half, 1);
          }
        }
      }
      CancelShift(p, k - 1, g);
    }
  }

  /** And x^k times a multiple of g is a multiple of g. */
  lemma {:induction false} ShiftMultiple(p: Poly, k: nat, g: Poly)
    requires Congruent(p, {}, g)
    ensures Congruent(Shift(p, k), {}, g)
  {
    if k == 0 {
      assert Shift(p, 0) == p;
    } else {
      ShiftMultiple(p, k - 1, g);
      var bits: seq<bool> :| Shift(p, k - 1) == Add(Times(bits, g), {});
      assert (bits + [false])[..|bits|] == bits;
      assert Shift(p, k) == Shift(Shift(p, k - 1), 1);
      assert Shift(p, k) == Add(Times(bits + [false], g), {});
    }
  }

  /** One step of long division: bring down the next coefficient, shift, subtract g if needed.

  `hi` and `message` are the dividend so far, `q` its multiple of g and `rest` its remainder. */
  lemma DivisionStep(hi: Poly, n: nat, message: Poly, q: Poly, rest: Poly, fed: Poly, next: Poly,
                     g: Poly, b: bool, carry: bool)
    requires Add(Shift(hi, n), Shift(message, 32)) == Add(q, rest)
    requires fed == Add(rest, if b then {31} else {})
    requires Shift(fed, 1) == Add(next, if carry then g else {})
    ensures Add(Shift(hi, n + 1), Shift(Add(Shift(message, 1), if b then {0} else {}), 32))
         == Add(Add(Shift(q, 1), if carry then g else {}), next)
  {
    hide Add, Shift;
    var bit0, bit31, bit32 := if b then {0} else {}, if b then {31} else {}, if b then {32} else {};
    var carried := if carry then g else {};
    ShiftConstants(b);
    ShiftAdd(Shift(message, 1), bit0, 32);
    ShiftShift(message, 1, 32);
    ShiftShift(message, 32, 1);
    ShiftShift(hi, n, 1);
    ShiftAdd(Shift(hi, n), Shift(message, 32), 1);
    ShiftAdd(q, rest, 1);
    ShiftAdd(rest, bit31, 1);
    AddAssociates(Shift(hi, n + 1), Shift(message, 33), bit32);
    AddAssociates(Shift(q, 1), Shift(rest, 1), bit32);
    AddCommutes(next, carried);
    AddAssociates(Shift(q, 1), carried, next);
  }

  lemma ShiftConstants(b: bool)
    ensures Shift(if b then {0} else {}, 32) == if b then {32} else {}
    ensures Shift(if b then {31} else {}, 1) == if b then {32} else {}
  {
  }

  lemma ShiftAdd(p: Poly, q: Poly, k: nat)
    ensures Shift(Add(p, q), k) == Add(Shift(p, k), Shift(q, k))
  {
  }

  lemma ShiftShift(p: Poly, j: nat, k: nat)
    ensures Shift(Shift(p, j), k) == Shift(p, j + k)
  {
  }

  lemma AddCommutes(p: Poly, q: Poly)
    ensures Add(p, q) == Add(q, p)
  {
  }

  lemma AddAssociates(p: Poly, q: Poly, r: Poly)
    ensures Add(Add(p, q), r) == Add(p, Add(q, r))
  {
  }

  lemma AddZero(p: Poly)
    ensures Add(p, {}) == p && Add({}, p) == p && Add(p, p) == {}
    ensures Shift(p, 0) == p
  {
  }

  lemma TimesAppend(bits: seq<bool>, b: bool, g: Poly)
    ensures Times(bits + [b], g) == Add(Shift(Times(bits, g), 1), if b then g else {})
  {
    assert (bits + [b])[..|bits|] == bits;
  }
}
