/** The voting classifier `SimpleVoting`: every class votes with the share of its
    rules that accept an example, and the example gets the first class with the
    largest share. */
module Logical {
  import opened Results
  import opened Dicts
  import opened Bounds
  import opened ArgMax
  import RulStat

  type Rules = Dict<int, seq<seq<Bound>>>

  /** Every rule of rs has 2F bounds. */
  ghost predicate Sized(rs: seq<seq<Bound>>, F: nat) {
    forall i :: 0 <= i < |rs| ==> |rs[i]| == 2 * F
  }

  /** Every rule of every class has 2F bounds. */
  ghost predicate AllSized(rules: Rules, F: nat) {
    forall k :: k in rules.entries ==> Sized(rules.entries[k], F)
  }

  /** Every example has F values and every rule 2F bounds, as `apply_rule` asserts. */
  ghost predicate Shaped(rules: Rules, data: seq<seq<real>>, F: nat) {
    AllSized(rules, F) && forall e :: 0 <= e < |data| ==> |data[e]| == F
  }

  /** `apply_rule(rule, x)` on a rule of the right width (the only kind the
      classifier is given). */
  predicate Admits(rule: seq<Bound>, x: seq<real>) {
    |rule| == 2 * |x| && Accepts(rule, x)
  }

  /** Number of rules of rs that accept x: `votes[key]`. */
  function Votes(rs: seq<seq<Bound>>, x: seq<real>): (v: nat)
    ensures v <= |rs|
  {
    if rs == [] then 0
    else Votes(rs[..|rs| - 1], x) + (if Admits(rs[|rs| - 1], x) then 1 else 0)
  }

  /** Rules that all accept x give one vote each, rules that all reject x none. */
  lemma {:induction false} VotesExtremes(rs: seq<seq<Bound>>, x: seq<real>)
    ensures (forall i :: 0 <= i < |rs| ==> Admits(rs[i], x)) ==> Votes(rs, x) == |rs|
    ensures (forall i :: 0 <= i < |rs| ==> !Admits(rs[i], x)) ==> Votes(rs, x) == 0
  {
    if rs != [] {
      VotesExtremes(rs[..|rs| - 1], x);
    }
  }

  /** `votes[key] / len(self.rules[key])`, an exact fraction. */
  function Share(rs: seq<seq<Bound>>, x: seq<real>): (s: real)
    requires rs != []
    ensures 0.0 <= s <= 1.0
  {
    Votes(rs, x) as real / |rs| as real
  }

  /** The predictable case: some class, and every class has a rule. */
  ghost predicate Voters(rules: Rules) {
    rules.Valid() && rules.keys != [] && forall i :: 0 <= i < |rules.keys| ==> rules.entries[rules.keys[i]] != []
  }

  /** The shares of the classes, in the dictionary's order. */
  function Shares(rules: Rules, x: seq<real>): (s: seq<real>)
    requires Voters(rules)
    ensures |s| == |rules.keys|
  {
    seq(|rules.keys|, i requires 0 <= i < |rules.keys| => Share(rules.entries[rules.keys[i]], x))
  }

  /** `max(votes, key=votes.get)`: the position of the first class with the
      largest share. */
  function PredictIndex(rules: Rules, x: seq<real>): (j: nat)
    requires Voters(rules)
    ensures j < |rules.keys|
  {
    FirstArgMax(Shares(rules, x))
  }

  /** The predicted label. */
  function Predict(rules: Rules, x: seq<real>): int
    requires Voters(rules)
  {
    rules.keys[PredictIndex(rules, x)]
  }

  /** The predicted label is a class of the rules, has the largest share, and
      every class before it in the dictionary's order has a smaller share. */
  lemma PredictIsFirstBest(rules: Rules, x: seq<real>)
    requires Voters(rules)
    ensures Predict(rules, x) in rules.entries
    ensures forall k :: k in rules.entries ==>
              Share(rules.entries[k], x) <= Share(rules.entries[Predict(rules, x)], x)
    ensures forall q :: 0 <= q < PredictIndex(rules, x) ==>
              Share(rules.entries[rules.keys[q]], x) < Share(rules.entries[Predict(rules, x)], x)
  {
    var s := Shares(rules, x);
    var j := PredictIndex(rules, x);
    forall k | k in rules.entries
      ensures Share(rules.entries[k], x) <= Share(rules.entries[Predict(rules, x)], x)
    {
      var i :| 0 <= i < |rules.keys| && rules.keys[i] == k;
      assert s[i] <= s[j];
    }
    forall q | 0 <= q < j
      ensures Share(rules.entries[rules.keys[q]], x) < Share(rules.entries[Predict(rules, x)], x)
    {
      assert s[q] < s[j];
    }
  }

  /** A class whose every rule accepts x gets the full share, and so does the
      predicted class. */
  lemma UnanimousClassWins(rules: Rules, x: seq<real>, k: int)
    requires Voters(rules)
    requires k in rules.entries && forall i :: 0 <= i < |rules.entries[k]| ==> Admits(rules.entries[k][i], x)
    ensures Share(rules.entries[k], x) == 1.0
    ensures Share(rules.entries[Predict(rules, x)], x) == 1.0
  {
    var rs := rules.entries[k];
    var i :| 0 <= i < |rules.keys| && rules.keys[i] == k;
    VotesExtremes(rs, x);
    FullShare(rs, x);
    PredictIsFirstBest(rules, x);
  }

  lemma FullShare(rs: seq<seq<Bound>>, x: seq<real>)
    requires rs != [] && Votes(rs, x) == |rs|
    ensures Share(rs, x) == 1.0
  {
    var n := |rs| as real;
    assert Share(rs, x) == n / n;
  }

  /** What `fit` returns: no examples give no labels whatever the rules; otherwise
      the first example already divides by the size of an empty rule list, or
      takes the maximum of an empty dictionary. */
  ghost function FitSpec(rules: Rules, data: seq<seq<real>>, F: nat): (r: Result<seq<int>>)
    requires rules.Valid() && Shaped(rules, data, F)
  {
    if data == [] then Ok([])
    else if exists i :: 0 <= i < |rules.keys| && rules.entries[rules.keys[i]] == [] then Err(ZeroDivisionError)
    else if rules.keys == [] then Err(ValueError)
    else Ok(seq(|data|, e requires 0 <= e < |data| => Predict(rules, data[e])))
  }

  /** fit labels every example, in input order, with a class of the rules. */
  lemma FitLabels(rules: Rules, data: seq<seq<real>>, F: nat)
    requires rules.Valid() && Shaped(rules, data, F) && FitSpec(rules, data, F).Ok?
    ensures |FitSpec(rules, data, F).value| == |data|
    ensures forall e :: 0 <= e < |data| ==> FitSpec(rules, data, F).value[e] in rules.entries
  {
    if data != [] {
      forall e | 0 <= e < |data|
        ensures FitSpec(rules, data, F).value[e] in rules.entries
      {
        PredictIsFirstBest(rules, data[e]);
      }
    }
  }

  /** The vote loops for one example: `votes[key]` for every class. */
  method CountVotes(rules: Rules, x: seq<real>, ghost F: nat) returns (votes: seq<nat>)
    requires rules.Valid() && AllSized(rules, F) && |x| == F
    ensures |votes| == |rules.keys|
    ensures forall i :: 0 <= i < |rules.keys| ==> votes[i] == Votes(rules.entries[rules.keys[i]], x)
  {
    votes := [];
    var c := 0;
    while c < |rules.keys|
      invariant 0 <= c <= |rules.keys| && |votes| == c
      invariant forall i :: 0 <= i < c ==> votes[i] == Votes(rules.entries[rules.keys[i]], x)
    {
      var rs := rules.entries[rules.keys[c]];
      var v := 0;
      var q := 0;
      while q < |rs|
        invariant 0 <= q <= |rs| && v == Votes(rs[..q], x)
      {
        assert rs[..q + 1][..q] == rs[..q];
        var ok := RulStat.ApplyRule(rs[q], x);
        if ok {
          v := v + 1;
        }
        q := q + 1;
      }
      assert rs[..q] == rs;
      votes := votes + [v];
      c := c + 1;
    }
  }

  /** One example: the votes, their shares and the first class with the largest. */
  method PredictOne(rules: Rules, x: seq<real>, ghost F: nat) returns (r: Result<int>)
    requires rules.Valid() && AllSized(rules, F) && |x| == F
    ensures (exists i :: 0 <= i < |rules.keys| && rules.entries[rules.keys[i]] == []) ==> r == Err(ZeroDivisionError)
    ensures (forall i :: 0 <= i < |rules.keys| ==> rules.entries[rules.keys[i]] != []) && rules.keys == [] ==> r == Err(ValueError)
    ensures Voters(rules) ==> r == Ok(Predict(rules, x))
  {
    var votes := CountVotes(rules, x, F);
    var shares: seq<real> := [];
    var c := 0;
    while c < |rules.keys|
      invariant 0 <= c <= |rules.keys| && |shares| == c
      invariant forall i :: 0 <= i < c ==>
                  rules.entries[rules.keys[i]] != [] && shares[i] == Share(rules.entries[rules.keys[i]], x)
    {
      var rs := rules.entries[rules.keys[c]];
      if |rs| == 0 {
        return Err(ZeroDivisionError);
      }
      shares := shares + [votes[c] as real / |rs| as real];
      c := c + 1;
    }
    if rules.keys == [] {
      return Err(ValueError);
    }
    assert shares == Shares(rules, x);
    return Ok(rules.keys[FirstArgMax(shares)]);
  }

  /** The classifier: it holds the processed rules and the labels of its last fit. */
  class SimpleVoting {
    const rules: Rules
    var labels: seq<int>

    constructor (rules: Rules)
      ensures this.rules == rules && labels == []
    {
      this.rules := rules;
      labels := [];
    }

    /** `fit(data)`: resets the labels, then labels the examples in order; the
        rules are left as they are. After an error the labels are the ones
        appended before it, that is none. */
    method Fit(data: seq<seq<real>>, ghost F: nat) returns (r: Result<seq<int>>)
      requires rules.Valid() && Shaped(rules, data, F)
      modifies this`labels
      ensures r == FitSpec(rules, data, F)
      ensures labels == if r.Ok? then r.value else []
    {
      labels := [];
      var e := 0;
      while e < |data|
        invariant 0 <= e <= |data| && |labels| == e
        invariant e > 0 ==> Voters(rules)
        invariant forall q :: 0 <= q < e ==> labels[q] == Predict(rules, data[q])
      {
        var got := PredictOne(rules, data[e], F);
        if got.Err? {
          labels := [];
          return Err(got.error);
        }
        labels := labels + [got.value];
        e := e + 1;
      }
      assert data != [] ==> labels == seq(|data|, q requires 0 <= q < |data| => Predict(rules, data[q]));
      return Ok(labels);
    }
  }
}
