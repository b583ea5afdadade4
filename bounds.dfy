/** Rule bounds and the acceptance test shared by every component.

    A flattened rule is a vector `[lo0, hi0, lo1, hi1, ...]` of length 2F; it
    accepts a feature vector x of length F when every feature lies in its closed
    interval. Bounds are numbers or the two open sentinels -inf and +inf. */
module Bounds {

  datatype Bound = NegInf | Fin(value: real) | PosInf

  /** `b <= x` for a bound b and a number x. */
  predicate AtMost(b: Bound, x: real) {
    b.NegInf? || (b.Fin? && b.value <= x)
  }

  /** `x <= b` for a number x and a bound b. */
  predicate AtLeast(b: Bound, x: real) {
    b.PosInf? || (b.Fin? && x <= b.value)
  }

  /** `a <= b` on the extended reals. */
  predicate Le(a: Bound, b: Bound) {
    a.NegInf? || b.PosInf? || (a.Fin? && b.Fin? && a.value <= b.value)
  }

  /** Feature f of x lies in the closed interval [rule[2f], rule[2f+1]]. */
  predicate InInterval(rule: seq<Bound>, x: seq<real>, f: int)
    requires |rule| == 2 * |x| && 0 <= f < |x|
  {
    AtMost(rule[2 * f], x[f]) && AtLeast(rule[2 * f + 1], x[f])
  }

  /** The box membership test: every feature lies in its interval, both ends included. */
  predicate Accepts(rule: seq<Bound>, x: seq<real>)
    requires |rule| == 2 * |x|
  {
    forall f :: 0 <= f < |x| ==> InInterval(rule, x, f)
  }

  /** Every entry of a vector is finite. */
  predicate Finite(v: seq<Bound>) {
    forall p :: 0 <= p < |v| ==> v[p].Fin?
  }

  /** A vector of numbers as a vector of finite bounds. */
  function ToBounds(v: seq<real>): (b: seq<Bound>)
    ensures |b| == |v| && Finite(b)
    ensures forall p :: 0 <= p < |v| ==> b[p] == Fin(v[p])
  {
    seq(|v|, p requires 0 <= p < |v| => Fin(v[p]))
  }

  /** A value exactly on either end of its interval is accepted. */
  lemma EndpointsAccepted(rule: seq<Bound>, x: seq<real>, f: int)
    requires |rule| == 2 * |x| && 0 <= f < |x|
    requires rule[2 * f] == Fin(x[f]) || rule[2 * f + 1] == Fin(x[f])
    requires Le(rule[2 * f], rule[2 * f + 1])
    ensures InInterval(rule, x, f)
  {
  }

  /** An interval whose lower end is above its upper end makes the rule reject everything. */
  lemma InvertedIntervalRejects(rule: seq<Bound>, x: seq<real>, f: int)
    requires |rule| == 2 * |x| && 0 <= f < |x|
    requires !Le(rule[2 * f], rule[2 * f + 1])
    ensures !Accepts(rule, x)
  {
    assert !InInterval(rule, x, f);
  }

  /** `wide` contains every interval of `rule`. */
  predicate Wider(rule: seq<Bound>, wide: seq<Bound>)
    requires |rule| == |wide| && |rule| % 2 == 0
  {
    forall f :: 0 <= f < |rule| / 2 ==> Le(wide[2 * f], rule[2 * f]) && Le(rule[2 * f + 1], wide[2 * f + 1])
  }

  /** Widening intervals never turns an acceptance into a rejection. */
  lemma WideningKeepsAcceptance(rule: seq<Bound>, wide: seq<Bound>, x: seq<real>)
    requires |rule| == |wide| == 2 * |x|
    requires Wider(rule, wide)
    requires Accepts(rule, x)
    ensures Accepts(wide, x)
  {
    forall f | 0 <= f < |x|
      ensures InInterval(wide, x, f)
    {
      assert InInterval(rule, x, f);
    }
  }
}
