/** The acceptance test `apply_rule` and the per-rule contingency counts of `RulesStats`. */
module RulStat {
  import opened Bounds
  import opened Dicts

  /** How many examples of one class a rule accepts and how many it rejects. */
  datatype Counts = Counts(accepted: nat, rejected: nat)

  /** `apply_rule`: walks the features with the bound index t = 2f and returns
      false at the first feature outside its interval. The length check is the
      function's own assertion, so it is a precondition here. */
  method ApplyRule(rule: seq<Bound>, x: seq<real>) returns (accepted: bool)
    requires |rule| == 2 * |x|
    ensures accepted <==> Accepts(rule, x)
  {
    var t := 0;
    var k := 0;
    while k < |x|
      invariant 0 <= k <= |x| && t == 2 * k
      invariant forall f :: 0 <= f < k ==> InInterval(rule, x, f)
    {
      if !(AtMost(rule[t], x[k]) && AtLeast(rule[t + 1], x[k])) {
        assert !InInterval(rule, x, k);
        return false;
      }
      t := t + 2;
      k := k + 1;
    }
    return true;
  }

  /** Every example of xs has half the width of the rule. */
  ghost predicate Fits(rule: seq<Bound>, xs: seq<seq<real>>) {
    forall e :: 0 <= e < |xs| ==> |rule| == 2 * |xs[e]|
  }

  /** Number of examples of xs that the rule accepts. */
  function AcceptedCount(rule: seq<Bound>, xs: seq<seq<real>>): (c: nat)
    requires Fits(rule, xs)
    ensures c <= |xs|
  {
    if xs == [] then 0
    else AcceptedCount(rule, xs[..|xs| - 1]) + (if Accepts(rule, xs[|xs| - 1]) then 1 else 0)
  }

  /** Number of examples of xs that the rule rejects. */
  function RejectedCount(rule: seq<Bound>, xs: seq<seq<real>>): (c: nat)
    requires Fits(rule, xs)
    ensures c <= |xs|
  {
    if xs == [] then 0
    else RejectedCount(rule, xs[..|xs| - 1]) + (if Accepts(rule, xs[|xs| - 1]) then 0 else 1)
  }

  /** Every example is either accepted or rejected, never both. */
  lemma {:induction false} CountsPartition(rule: seq<Bound>, xs: seq<seq<real>>)
    requires Fits(rule, xs)
    ensures AcceptedCount(rule, xs) + RejectedCount(rule, xs) == |xs|
  {
    if xs != [] {
      CountsPartition(rule, xs[..|xs| - 1]);
    }
  }

  /** The [accepted, rejected] pair of a rule over the examples of one class. */
  function Tally(rule: seq<Bound>, xs: seq<seq<real>>): (c: Counts)
    requires Fits(rule, xs)
    ensures c.accepted + c.rejected == |xs|
  {
    var a := AcceptedCount(rule, xs);
    Counts(a, |xs| - a)
  }

  /** A rule that accepts every example of xs tallies them all as accepted,
      one that rejects every example tallies them all as rejected. */
  lemma {:induction false} TallyExtremes(rule: seq<Bound>, xs: seq<seq<real>>)
    requires Fits(rule, xs)
    ensures (forall e :: 0 <= e < |xs| ==> Accepts(rule, xs[e])) ==> Tally(rule, xs) == Counts(|xs|, 0)
    ensures (forall e :: 0 <= e < |xs| ==> !Accepts(rule, xs[e])) ==> Tally(rule, xs) == Counts(0, |xs|)
  {
    if xs != [] {
      TallyExtremes(rule, xs[..|xs| - 1]);
    }
  }

  /** Every rule of every class has width w. */
  ghost predicate RuleWidth(rules: Dict<int, seq<seq<Bound>>>, w: nat) {
    forall k, i :: k in rules.entries && 0 <= i < |rules.entries[k]| ==> |rules.entries[k][i]| == w
  }

  /** Every example of every class has width F. */
  ghost predicate DataWidth(data: Dict<int, seq<seq<real>>>, F: nat) {
    forall k, e :: k in data.entries && 0 <= e < |data.entries[k]| ==> |data.entries[k][e]| == F
  }

  /** The statistics of one rule: one pair per data class, in the data's class order. */
  ghost predicate RuleRow(entry: Dict<int, Counts>, rule: seq<Bound>, data: Dict<int, seq<seq<real>>>) {
    && entry.Valid()
    && entry.keys == data.keys
    && forall xlabel :: xlabel in data.entries ==>
         xlabel in entry.entries && Fits(rule, data.entries[xlabel]) && entry.entries[xlabel] == Tally(rule, data.entries[xlabel])
  }

  /** The statistics of one rule class: one row per rule, in rule order. */
  ghost predicate ClassRows(list: seq<Dict<int, Counts>>, rs: seq<seq<Bound>>, data: Dict<int, seq<seq<real>>>) {
    |list| == |rs| && forall i :: 0 <= i < |rs| ==> RuleRow(list[i], rs[i], data)
  }

  /** The innermost loop of `RulesStats.__init__`: one rule against the examples of one class. */
  method TallyClass(rule: seq<Bound>, xs: seq<seq<real>>) returns (c: Counts)
    requires Fits(rule, xs)
    ensures c == Tally(rule, xs)
    ensures c.accepted == AcceptedCount(rule, xs) && c.rejected == RejectedCount(rule, xs)
  {
    var acc, rej := 0, 0;
    var e := 0;
    while e < |xs|
      invariant 0 <= e <= |xs|
      invariant acc == AcceptedCount(rule, xs[..e]) && rej == RejectedCount(rule, xs[..e])
    {
      assert xs[..e + 1][..e] == xs[..e];
      var ok := ApplyRule(rule, xs[e]);
      if ok {
        acc := acc + 1;
      } else {
        rej := rej + 1;
      }
      e := e + 1;
    }
    assert xs[..e] == xs;
    CountsPartition(rule, xs);
    c := Counts(acc, rej);
  }

  /** Every class of the data has examples of half the rule's width. */
  ghost predicate AllFit(rule: seq<Bound>, data: Dict<int, seq<seq<real>>>) {
    forall k :: k in data.entries ==> Fits(rule, data.entries[k])
  }

  /** The `stats` dictionary after the first c data classes have been tallied. */
  ghost function RowOf(rule: seq<Bound>, data: Dict<int, seq<seq<real>>>, c: nat): Dict<int, Counts>
    requires data.Valid() && AllFit(rule, data) && c <= |data.keys|
  {
    Dict(data.keys[..c], map k | k in data.keys[..c] :: Tally(rule, data.entries[k]))
  }

  /** Tallying class c extends RowOf(c) to RowOf(c + 1). */
  lemma RowOfStep(rule: seq<Bound>, data: Dict<int, seq<seq<real>>>, c: nat)
    requires data.Valid() && AllFit(rule, data) && c < |data.keys|
    ensures RowOf(rule, data, c).Put(data.keys[c], Tally(rule, data.entries[data.keys[c]])) == RowOf(rule, data, c + 1)
  {
    KeyNotInPrefix(data, c);
    assert data.keys[..c + 1] == data.keys[..c] + [data.keys[c]];
  }

  /** Once every class is tallied, the dictionary is the statistics row of the rule. */
  lemma RowOfComplete(rule: seq<Bound>, data: Dict<int, seq<seq<real>>>)
    requires data.Valid() && AllFit(rule, data)
    ensures RuleRow(RowOf(rule, data, |data.keys|), rule, data)
  {
    assert data.keys[..|data.keys|] == data.keys;
  }

  /** The loop over data classes: the `stats` dictionary of one rule. */
  method TallyRule(rule: seq<Bound>, data: Dict<int, seq<seq<real>>>, ghost F: nat) returns (entry: Dict<int, Counts>)
    requires data.Valid() && DataWidth(data, F) && |rule| == 2 * F
    ensures RuleRow(entry, rule, data)
  {
    assert AllFit(rule, data);
    entry := Empty();
    assert entry == RowOf(rule, data, 0);
    var c := 0;
    while c < |data.keys|
      invariant 0 <= c <= |data.keys|
      invariant entry == RowOf(rule, data, c)
    {
      var xlabel := data.keys[c];
      var counts := TallyClass(rule, data.entries[xlabel]);
      RowOfStep(rule, data, c);
      entry := entry.Put(xlabel, counts);
      c := c + 1;
    }
    RowOfComplete(rule, data);
  }

  /** The loop over the rules of one rule class: one statistics row per rule, in rule order. */
  method TallyRules(rs: seq<seq<Bound>>, data: Dict<int, seq<seq<real>>>, ghost F: nat) returns (list: seq<Dict<int, Counts>>)
    requires data.Valid() && DataWidth(data, F)
    requires forall i :: 0 <= i < |rs| ==> |rs[i]| == 2 * F
    ensures ClassRows(list, rs, data)
  {
    list := [];
    var b := 0;
    while b < |rs|
      invariant 0 <= b <= |rs| && |list| == b
      invariant forall i :: 0 <= i < b ==> RuleRow(list[i], rs[i], data)
    {
      var entry := TallyRule(rs[b], data, F);
      list := list + [entry];
      b := b + 1;
    }
  }

  /** `RulesStats.__init__`: for every rule class, every rule and every data class,
      counts the examples of that class the rule accepts and rejects. */
  method RulesStats(rules: Dict<int, seq<seq<Bound>>>, data: Dict<int, seq<seq<real>>>, ghost F: nat)
    returns (stats: Dict<int, seq<Dict<int, Counts>>>)
    requires rules.Valid() && data.Valid()
    requires RuleWidth(rules, 2 * F) && DataWidth(data, F)
    ensures stats.Valid() && stats.keys == rules.keys
    ensures forall rlabel :: rlabel in rules.entries ==> ClassRows(stats.entries[rlabel], rules.entries[rlabel], data)
  {
    stats := Empty();
    var a := 0;
    while a < |rules.keys|
      invariant 0 <= a <= |rules.keys|
      invariant stats.Valid() && stats.keys == rules.keys[..a]
      invariant forall k :: k in stats.entries ==> k in rules.entries && ClassRows(stats.entries[k], rules.entries[k], data)
    {
      var rlabel := rules.keys[a];
      KeyNotInPrefix(rules, a);
      var list := TallyRules(rules.entries[rlabel], data, F);
      stats := stats.Put(rlabel, list);
      a := a + 1;
    }
    assert rules.keys[..a] == rules.keys;
  }
}
