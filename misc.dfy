/** The second copy of `apply_rule`, kept in its own file by the program. */
module Misc {
  import opened Bounds
  import RulStat

  /** Same walk as `RulStat.ApplyRule`, with the same contract, so the two agree on
      every input. */
  method ApplyRule(rule: seq<Bound>, x: seq<real>) returns (accepted: bool)
    requires |rule| == 2 * |x|
    ensures accepted <==> Accepts(rule, x)
  {
    var t := 0;
    var k := 0;
    while k < |x|
      invariant 0 <= k <= |x| && t == 2 * k
      invariant forall f :: 0 <= f < k ==> InInterval(rule, x, f)
    {
      if !(AtMost(rule[t], x[k]) && AtLeast(rule[t + 1], x[k])) {
        assert !InInterval(rule, x, k);
        return false;
      }
      t := t + 2;
      k := k + 1;
    }
    return true;
  }

  /** Both copies of `apply_rule` give the same verdict. */
  method Agree(rule: seq<Bound>, x: seq<real>) returns (here: bool, there: bool)
    requires |rule| == 2 * |x|
    ensures here == there
  {
    here := ApplyRule(rule, x);
    there := RulStat.ApplyRule(rule, x);
  }
}
