/** The position of the first maximum of a sequence of scores: Python's `max`
    with a key and numpy's `argmax` both keep the earliest of equal maxima. */
module ArgMax {

  /** Scanning left to right, the candidate is replaced only by a strictly
      greater score. */
  function FirstArgMax(s: seq<real>): (j: nat)
    requires |s| > 0
    ensures j < |s|
    ensures forall i :: 0 <= i < |s| ==> s[i] <= s[j]
    ensures forall i :: 0 <= i < j ==> s[i] < s[j]
  {
    if |s| == 1 then 0
    else
      var j := FirstArgMax(s[..|s| - 1]);
      if s[|s| - 1] > s[j] then |s| - 1 else j
  }
}
