/**
 * The generator's seeded random source: a linear congruential generator whose
 * state is threaded explicitly, with a zero state forced to 1.
 */
module Prng {

  const MULTIPLIER: nat := 9301
  const INCREMENT: nat := 49297
  const MODULUS: nat := 233280

  /** The raw congruential step, before the zero guard. */
  function Lcg(s: nat): nat
  {
    (s * MULTIPLIER + INCREMENT) % MODULUS
  }

  /** The state left behind by one call of random(). */
  function NextState(s: nat): (t: nat)
    ensures 1 <= t < MODULUS
    ensures t != Lcg(s) <==> Lcg(s) == 0
    ensures t != Lcg(s) ==> t == 1
  {
    var u := Lcg(s);
    if u == 0 then 1 else u
  }

  /** One value of random() together with the state it leaves. */
  datatype Draw = Draw(value: real, next: nat)

  /** random(): advance the state and return it scaled by the modulus. */
  function Random(s: nat): (d: Draw)
    ensures d.next == NextState(s)
    ensures 0.0 < d.value < 1.0
    ensures d.value * (MODULUS as real) == d.next as real
  {
    var t := NextState(s);
    Draw(t as real / MODULUS as real, t)
  }

  /** The step only sees its state modulo 233280, so a state and that state plus the modulus draw alike. */
  lemma {:induction false} RandomPeriodic(s: nat)
    ensures Random(s + MODULUS) == Random(s)
  {
    calc {
      (s + MODULUS) * MULTIPLIER + INCREMENT;
      (s * MULTIPLIER + INCREMENT) + MODULUS * MULTIPLIER;
    }
    ModAddMultiple(s * MULTIPLIER + INCREMENT, MULTIPLIER);
  }

  lemma {:induction false} ModAddMultiple(a: nat, k: nat)
    ensures (a + MODULUS * k) % MODULUS == a % MODULUS
    decreases k
  {
    if k > 0 {
      ModAddMultiple(a, k - 1);
      assert a + MODULUS * k == (a + MODULUS * (k - 1)) + MODULUS;
    }
  }
}
