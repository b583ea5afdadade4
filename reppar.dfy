/** The report parsers: rebuilding interval rules from the bound expressions of a
    rule-discovery report, grouping them by class and merging several tables.

    Tree navigation, the regular expressions and number parsing are outside the
    model: a report arrives as rows whose cells already hold the matched bound
    expressions, each split at the delimiter into stripped pieces. */
module RepPar {
  import opened Results
  import opened Dicts
  import opened Bounds

  /** One stripped piece of a matched bound expression: a number, or the feature
      token (the feature letter followed by the decimal index of the feature,
      None when no digit follows the letter, so that `int('')` fails). */
  datatype Piece = Num(value: real) | Var(index: Option<nat>)

  /** A matched expression `[lo <d>] Xj [<d> hi]`, split at the delimiter <d>. */
  type Fragment = seq<Piece>

  /** The bounds of one feature; the open sides are the sentinels. */
  datatype Interval = Interval(lo: Bound, hi: Bound)

  /** The bound pair `(minv, maxv)` of a feature the text does not mention. */
  const Open := Interval(NegInf, PosInf)

  /** A rule as the parser returns it: one interval per feature. */
  type Rule = seq<Interval>

  /** A classified fragment: the 1-based feature index and its interval. */
  datatype Range = Range(index: nat, bounds: Interval)

  /** The three-way test of `_build_rule`: three pieces carry both bounds; otherwise
      the first piece being the feature gives an upper bound, the second being the
      feature gives a lower bound, and anything else ends the run with `sys.exit`.
      A missing piece or a piece of the wrong kind where a number or an index is
      converted raises, which also aborts. */
  function Classify(f: Fragment): Result<Range> {
    if |f| == 3 then
      if f[1].Var? && f[1].index.Some? && f[0].Num? && f[2].Num? then
        Ok(Range(f[1].index.value, Interval(Fin(f[0].value), Fin(f[2].value))))
      else Err(ValueError)
    else if |f| == 0 then Err(IndexError)
    else if f[0].Var? then
      if f[0].index.None? then Err(ValueError)
      else if |f| < 2 then Err(IndexError)
      else if f[1].Num? then Ok(Range(f[0].index.value, Interval(NegInf, Fin(f[1].value))))
      else Err(ValueError)
    else if |f| < 2 then Err(IndexError)
    else if f[1].Var? then
      if f[1].index.Some? then Ok(Range(f[1].index.value, Interval(Fin(f[0].value), PosInf)))
      else Err(ValueError)
    else Err(Exit)
  }

  /** Classifies the fragments in order; the first failure aborts. */
  function ClassifyAll(fs: seq<Fragment>): (r: Result<seq<Range>>)
    ensures r.Ok? ==> |r.value| == |fs|
  {
    if fs == [] then Ok([])
    else
      match ClassifyAll(fs[..|fs| - 1])
      case Err(e) => Err(e)
      case Ok(rs) =>
        match Classify(fs[|fs| - 1])
        case Err(e) => Err(e)
        case Ok(g) => Ok(rs + [g])
  }

  /** Feature indices strictly increase from 1 on. */
  ghost predicate Increasing(rs: seq<Range>) {
    && (rs != [] ==> 1 <= rs[0].index)
    && forall a, b :: 0 <= a < b < |rs| ==> rs[a].index < rs[b].index
  }

  /** The indices strictly increase within 1..n. */
  ghost predicate Placeable(rs: seq<Range>, n: nat) {
    Increasing(rs) && (rs != [] ==> rs[|rs| - 1].index <= n)
  }

  /** The interval the ranges give feature j: the last range with index j, else open. */
  function IntervalAt(rs: seq<Range>, j: int): Interval {
    if rs == [] then Open
    else if rs[|rs| - 1].index == j then rs[|rs| - 1].bounds
    else IntervalAt(rs[..|rs| - 1], j)
  }

  /** The rule of n features that the ranges describe. */
  function RuleOf(rs: seq<Range>, n: nat): (rule: Rule)
    ensures |rule| == n
  {
    seq(n, q => IntervalAt(rs, q + 1))
  }

  /** An interval whose lower end is not +inf and whose upper end is not -inf. */
  predicate Proper(iv: Interval) {
    !iv.lo.PosInf? && !iv.hi.NegInf?
  }

  lemma {:induction false} ClassifyAllProper(fs: seq<Fragment>)
    requires ClassifyAll(fs).Ok?
    ensures forall k :: 0 <= k < |fs| ==> Proper(ClassifyAll(fs).value[k].bounds)
  {
    if fs != [] {
      ClassifyAllProper(fs[..|fs| - 1]);
    }
  }

  lemma {:induction false} IntervalAtProper(rs: seq<Range>, j: int)
    requires forall k :: 0 <= k < |rs| ==> Proper(rs[k].bounds)
    ensures Proper(IntervalAt(rs, j))
  {
    if rs != [] && rs[|rs| - 1].index != j {
      IntervalAtProper(rs[..|rs| - 1], j);
    }
  }

  /** The last feature index seen, 0 before the first match. */
  function LastIndex(rs: seq<Range>): nat {
    if rs == [] then 0 else rs[|rs| - 1].index
  }

  /** The pairs `_build_rule` has collected after the ranges rs: each match adds
      the open pairs of the features skipped since the previous index, then its own. */
  function Assemble(rs: seq<Range>): Rule {
    if rs == [] then []
    else
      var init := rs[..|rs| - 1];
      Assemble(init) + Padding(LastIndex(init), rs[|rs| - 1].index) + [rs[|rs| - 1].bounds]
  }

  /** The collected pairs followed by the open pairs of features i..n-1. */
  function Assembled(rs: seq<Range>, n: nat): Rule {
    Assemble(rs) + Padding(LastIndex(rs) - 1, n)
  }

  /** What `_build_rule` returns: the assembled rule when every fragment classifies
      and it has exactly n pairs, a failed length assertion otherwise. */
  ghost function BuildRuleSpec(fs: seq<Fragment>, n: nat): Result<Rule> {
    match ClassifyAll(fs)
    case Err(e) => Err(e)
    case Ok(rs) => if |Assembled(rs, n)| == n then Ok(Assembled(rs, n)) else Err(AssertionError)
  }

  lemma {:induction false} ClassifyAllErrPersists(fs: seq<Fragment>, k: nat, e: Error)
    requires k <= |fs| && ClassifyAll(fs[..k]) == Err(e)
    ensures ClassifyAll(fs) == Err(e)
    decreases |fs| - k
  {
    if k < |fs| {
      assert fs[..k + 1][..k] == fs[..k];
      ClassifyAllErrPersists(fs, k + 1, e);
    } else {
      assert fs[..k] == fs;
    }
  }

  lemma {:induction false} IntervalAtBeyond(rs: seq<Range>, j: int)
    requires Increasing(rs) && (rs == [] || rs[|rs| - 1].index < j)
    ensures IntervalAt(rs, j) == Open
  {
    if rs != [] {
      IntervalAtBeyond(rs[..|rs| - 1], j);
    }
  }

  /** `[(minv, maxv) for j in range(i + 1, j)]`: the open pairs of the skipped features. */
  function Padding(i: int, j: int): (pad: Rule)
    ensures |pad| == if j > i + 1 then j - i - 1 else 0
  {
    seq(if j > i + 1 then j - i - 1 else 0, _ => Open)
  }

  /** The loop state of `_build_rule` after the ranges rs: i is the last index seen;
      while the indices increase the rule has exactly i pairs placed by index,
      and once they stop increasing it is already longer than i. */
  ghost predicate Built(rule: Rule, i: nat, rs: seq<Range>) {
    && i == (if rs == [] then 0 else rs[|rs| - 1].index)
    && (Increasing(rs) ==> |rule| == i && forall q :: 0 <= q < i ==> rule[q] == IntervalAt(rs, q + 1))
    && (!Increasing(rs) ==> |rule| > i)
  }

  lemma StepBuilt(rule: Rule, i: nat, rs: seq<Range>, g: Range)
    requires Built(rule, i, rs)
    ensures Built(rule + Padding(i, g.index) + [g.bounds], g.index, rs + [g])
  {
    var rs', rule' := rs + [g], rule + Padding(i, g.index) + [g.bounds];
    assert rs'[..|rs|] == rs;
    if Increasing(rs') {
      assert Increasing(rs);
      forall q | 0 <= q < g.index
        ensures rule'[q] == IntervalAt(rs', q + 1)
      {
        if q >= i && q < g.index - 1 {
          IntervalAtBeyond(rs, q + 1);
        }
      }
    }
  }

  lemma FinishBuilt(rule: Rule, i: nat, rs: seq<Range>, n: nat)
    requires Built(rule, i, rs)
    ensures var full := rule + Padding(i - 1, n);
            (|full| == n <==> Placeable(rs, n)) && (Placeable(rs, n) ==> full == RuleOf(rs, n))
  {
    var full := rule + Padding(i - 1, n);
    if Placeable(rs, n) {
      forall q | i <= q < n
        ensures full[q] == IntervalAt(rs, q + 1)
      {
        IntervalAtBeyond(rs, q + 1);
      }
      assert full == RuleOf(rs, n);
    }
  }

  /** The assembled pairs place every range at its index while the indices increase. */
  lemma {:induction false} AssembleBuilt(rs: seq<Range>)
    ensures Built(Assemble(rs), LastIndex(rs), rs)
  {
    if rs != [] {
      var init := rs[..|rs| - 1];
      AssembleBuilt(init);
      StepBuilt(Assemble(init), LastIndex(init), init, rs[|rs| - 1]);
      assert init + [rs[|rs| - 1]] == rs;
    }
  }

  /** `_build_rule`: for every match, pads the features skipped since the previous
      index with open pairs and appends the match's pair; then pads up to n and
      asserts that the rule has exactly n pairs. */
  method BuildRule(fs: seq<Fragment>, n: nat) returns (r: Result<Rule>)
    ensures r == BuildRuleSpec(fs, n)
  {
    var rule: Rule := [];
    var i: nat := 0;
    var k := 0;
    ghost var rs: seq<Range> := [];
    while k < |fs|
      invariant 0 <= k <= |fs|
      invariant ClassifyAll(fs[..k]) == Ok(rs) && |rs| == k
      invariant rule == Assemble(rs) && i == LastIndex(rs)
    {
      assert fs[..k + 1][..k] == fs[..k];
      var c := Classify(fs[k]);
      if c.Err? {
        ClassifyAllErrPersists(fs, k + 1, c.error);
        return Err(c.error);
      }
      var j := c.value.index;
      assert (rs + [c.value])[..|rs|] == rs;
      rule := rule + Padding(i, j) + [c.value.bounds];
      i := j;
      rs := rs + [c.value];
      k := k + 1;
    }
    assert fs[..k] == fs;
    rule := rule + Padding(i - 1, n);
    if |rule| != n {
      return Err(AssertionError);
    }
    return Ok(rule);
  }

  // ----- properties of the rebuilt rule -----

  lemma {:induction false} IntervalAtIndex(rs: seq<Range>, k: int)
    requires Increasing(rs) && 0 <= k < |rs|
    ensures IntervalAt(rs, rs[k].index) == rs[k].bounds
  {
    if k < |rs| - 1 {
      var init := rs[..|rs| - 1];
      assert init[k] == rs[k];
      assert Increasing(init);
      IndexGrows(rs, k, |rs| - 1);
      IntervalAtIndex(init, k);
    }
  }

  lemma {:induction false} IndexGrows(rs: seq<Range>, a: int, b: int)
    requires Increasing(rs) && 0 <= a < b < |rs|
    ensures rs[a].index < rs[b].index
    decreases b - a
  {
    if a + 1 < b {
      IndexGrows(rs, a + 1, b);
    }
  }

  lemma {:induction false} IntervalAtMissing(rs: seq<Range>, j: int)
    requires forall k :: 0 <= k < |rs| ==> rs[k].index != j
    ensures IntervalAt(rs, j) == Open
  {
    if rs != [] {
      IntervalAtMissing(rs[..|rs| - 1], j);
    }
  }

  /** A three-piece fragment `lo <d> Xj <d> hi` gives (lo, hi) for feature j. */
  lemma ClassifyBoth(lo: real, j: nat, hi: real)
    ensures Classify([Num(lo), Var(Some(j)), Num(hi)]) == Ok(Range(j, Interval(Fin(lo), Fin(hi))))
  {
  }

  /** `Xj <d> hi` gives (-inf, hi) and `lo <d> Xj` gives (lo, +inf). */
  lemma ClassifyOneSided(lo: real, j: nat, hi: real)
    ensures Classify([Var(Some(j)), Num(hi)]) == Ok(Range(j, Interval(NegInf, Fin(hi))))
    ensures Classify([Num(lo), Var(Some(j))]) == Ok(Range(j, Interval(Fin(lo), PosInf)))
  {
  }

  /** A fragment of two or more pieces (other than three) with the feature token in
      neither of the first two places ends the run. */
  lemma ClassifyMalformed(f: Fragment)
    requires |f| >= 2 && |f| != 3 && f[0].Num? && f[1].Num?
    ensures Classify(f) == Err(Exit)
  {
  }

  /** The rebuilt rule has n pairs exactly when every bound expression classifies and
      the indices strictly increase within 1..n; it then holds, for each feature, the
      last range with that index or the open pair. Otherwise the length assertion fails. */
  lemma BuildRuleLength(fs: seq<Fragment>, n: nat, rs: seq<Range>)
    requires ClassifyAll(fs) == Ok(rs)
    ensures BuildRuleSpec(fs, n).Ok? <==> Placeable(rs, n)
    ensures BuildRuleSpec(fs, n).Ok? ==> BuildRuleSpec(fs, n).value == RuleOf(rs, n)
    ensures !Placeable(rs, n) ==> BuildRuleSpec(fs, n) == Err(AssertionError)
  {
    AssembleBuilt(rs);
    FinishBuilt(Assemble(rs), LastIndex(rs), rs, n);
  }

  /** Each matched expression lands at its own 1-based position. */
  lemma BuildRulePlaces(fs: seq<Fragment>, n: nat, rs: seq<Range>, k: int)
    requires ClassifyAll(fs) == Ok(rs) && BuildRuleSpec(fs, n).Ok? && 0 <= k < |rs|
    ensures 1 <= rs[k].index <= n
    ensures BuildRuleSpec(fs, n).value[rs[k].index - 1] == rs[k].bounds
  {
    BuildRuleLength(fs, n, rs);
    if k < |rs| - 1 {
      IndexGrows(rs, k, |rs| - 1);
    }
    if 0 < k {
      IndexGrows(rs, 0, k);
    }
    IntervalAtIndex(rs, k);
  }

  /** Every feature that no matched expression mentions gets (-inf, +inf). */
  lemma BuildRuleFillsGaps(fs: seq<Fragment>, n: nat, rs: seq<Range>, q: int)
    requires ClassifyAll(fs) == Ok(rs) && BuildRuleSpec(fs, n).Ok? && 0 <= q < n
    requires forall k :: 0 <= k < |rs| ==> rs[k].index != q + 1
    ensures BuildRuleSpec(fs, n).value[q] == Open
  {
    BuildRuleLength(fs, n, rs);
    var rule := RuleOf(rs, n);
    assert BuildRuleSpec(fs, n).value == rule;
    IntervalAtMissing(rs, q + 1);
    assert rule[q] == IntervalAt(rs, q + 1);
  }

  /** A text without any bound expression gives the all-open rule. */
  lemma BuildRuleNoMatches(n: nat)
    ensures BuildRuleSpec([], n) == Ok(seq(n, _ => Open))
  {
    assert ClassifyAll([]) == Ok([]);
    BuildRuleLength([], n, []);
    assert RuleOf([], n) == seq(n, _ => Open);
  }

  /** Every interval of a built rule is proper: a parsed rule never has +inf as a
      lower end or -inf as an upper end. */
  lemma BuildRuleProper(fs: seq<Fragment>, n: nat)
    requires BuildRuleSpec(fs, n).Ok?
    ensures forall q :: 0 <= q < n ==> Proper(BuildRuleSpec(fs, n).value[q])
  {
    var rs := ClassifyAll(fs).value;
    BuildRuleLength(fs, n, rs);
    ClassifyAllProper(fs);
    forall q | 0 <= q < n
      ensures Proper(BuildRuleSpec(fs, n).value[q])
    {
      IntervalAtProper(rs, q + 1);
    }
  }

  /** "1.0<=X2<=5.0" with three features. */
  lemma BuildRuleExample()
    ensures BuildRuleSpec([[Num(1.0), Var(Some(2)), Num(5.0)]], 3)
            == Ok([Open, Interval(Fin(1.0), Fin(5.0)), Open])
  {
    var fs: seq<Fragment> := [[Num(1.0), Var(Some(2)), Num(5.0)]];
    var g := Range(2, Interval(Fin(1.0), Fin(5.0)));
    assert fs[..|fs| - 1] == [];
    assert Classify(fs[0]) == Ok(g);
    assert ClassifyAll(fs[..|fs| - 1]) == Ok([]);
    assert [] + [g] == [g];
    assert ClassifyAll(fs) == Ok([g]);
    assert [g][..0] == [];
    assert Assemble([g]) == [Open, Interval(Fin(1.0), Fin(5.0))];
    assert Padding(1, 3) == [Open];
    assert Assembled([g], 3) == [Open, Interval(Fin(1.0), Fin(5.0)), Open];
  }

  /** Every rule has the given width. */
  ghost predicate AllWidth(rules: seq<Rule>, n: nat) {
    forall i :: 0 <= i < |rules| ==> |rules[i]| == n
  }

  /** Every rule list of the dictionary has the given width. */
  ghost predicate DictWidth(d: Dict<int, seq<Rule>>, n: nat) {
    forall k :: k in d.entries ==> AllWidth(d.entries[k], n)
  }

  // ----- RulesParser: one table of rules, each row tagged with its class -----

  newtype Digit = d: int | 0 <= d <= 9

  /** A table row: the digits that `(\d)*` matches in the label "(класс NN)", and the
      bound expressions of the rule text. */
  datatype TableRow = TableRow(tag: seq<Digit>, text: seq<Fragment>)

  /** A rules table: the rule count from its first row and the rows that follow it. */
  datatype Table = Table(nrules: int, rows: seq<TableRow>)

  /** `int(rulep.search(...).group(1))`: a repeated group keeps only its last
      repetition, so the class tag is the last digit; no digit gives `int(None)`. */
  function ClassTag(tag: seq<Digit>): Result<int> {
    if tag == [] then Err(TypeError) else Ok(tag[|tag| - 1] as int)
  }

  /** Only the last digit of a class number survives: "(класс 12)" is class 2. */
  lemma ClassTagLastDigit()
    ensures ClassTag([1, 2]) == Ok(2)
    ensures ClassTag([]) == Err(TypeError)
  {
  }

  /** The state of `_table2rules`: the current class, its rules so far, and the
      groups already stored. */
  datatype Grouping = Grouping(idx: int, current: seq<Rule>, stored: Dict<int, seq<Rule>>)

  /** The first row opens the first group with its class and its rule. */
  ghost function First(row: TableRow, n: nat): (r: Result<Grouping>)
    ensures r.Ok? ==> r.value.stored.Valid() && AllWidth(r.value.current, n) && DictWidth(r.value.stored, n)
  {
    var tag :- ClassTag(row.tag);
    var rule :- BuildRuleSpec(row.text, n);
    Ok(Grouping(tag, [rule], Empty()))
  }

  /** One row after the first: a row with the current class adds its rule; a row
      of another class stores the current group and starts an empty one, so its
      own rule is never built. The message logged at the switch looks up the
      stored group of class `tag - 1`, and its arguments are evaluated whatever
      the log level, so a switch to a class whose predecessor is not stored
      raises. */
  ghost function Advance(g: Grouping, row: TableRow, n: nat): (r: Result<Grouping>)
    requires g.stored.Valid() && AllWidth(g.current, n) && DictWidth(g.stored, n)
    ensures r.Ok? ==> r.value.stored.Valid() && AllWidth(r.value.current, n) && DictWidth(r.value.stored, n)
  {
    var tag :- ClassTag(row.tag);
    if tag == g.idx then
      var rule :- BuildRuleSpec(row.text, n);
      Ok(Grouping(g.idx, g.current + [rule], g.stored))
    else
      var stored := g.stored.Put(g.idx, g.current);
      if tag - 1 !in stored.entries then Err(KeyError)
      else Ok(Grouping(tag, [], stored))
  }

  /** The state after the first k rows; the first failing row decides the error. */
  ghost function GroupRows(rows: seq<TableRow>, k: nat, n: nat): (r: Result<Grouping>)
    requires 1 <= k <= |rows|
    ensures r.Ok? ==> r.value.stored.Valid() && AllWidth(r.value.current, n) && DictWidth(r.value.stored, n)
  {
    if k == 1 then First(rows[0], n)
    else
      var g :- GroupRows(rows, k - 1, n);
      Advance(g, rows[k - 1], n)
  }

  lemma {:induction false} GroupRowsErrPersists(rows: seq<TableRow>, n: nat, k: nat, j: nat, e: Error)
    requires 1 <= k <= j <= |rows| && GroupRows(rows, k, n) == Err(e)
    ensures GroupRows(rows, j, n) == Err(e)
    decreases j - k
  {
    if k < j {
      GroupRowsErrStep(rows, n, k, e);
      GroupRowsErrPersists(rows, n, k + 1, j, e);
    }
  }

  /** An error after k rows is still the error after k + 1. */
  lemma GroupRowsErrStep(rows: seq<TableRow>, n: nat, k: nat, e: Error)
    requires 1 <= k < |rows| && GroupRows(rows, k, n) == Err(e)
    ensures GroupRows(rows, k + 1, n) == Err(e)
  {
  }

  /** One more row advances the grouping of the rows before it. */
  lemma GroupRowsStep(rows: seq<TableRow>, n: nat, k: nat, g: Grouping)
    requires 1 <= k < |rows| && GroupRows(rows, k, n) == Ok(g)
    ensures g.stored.Valid() && AllWidth(g.current, n) && DictWidth(g.stored, n)
    ensures GroupRows(rows, k + 1, n) == Advance(g, rows[k], n)
  {
  }

  /** How many rows `_table2rules` reads: the first one, then rows 1..nrules-1. */
  function RowsRead(t: Table): nat {
    if t.nrules > 1 then t.nrules else 1
  }

  /** How many of those rows exist. */
  function Reach(t: Table): nat {
    if RowsRead(t) < |t.rows| then RowsRead(t) else |t.rows|
  }

  /** After the last row the current group is stored as well. */
  function Close(g: Grouping): Dict<int, seq<Rule>> {
    g.stored.Put(g.idx, g.current)
  }

  /** The grouping after the rows read; running out of rows raises on `None.strings`. */
  ghost function Grouped(t: Table, n: nat): (r: Result<Grouping>)
    requires t.rows != []
    ensures r.Ok? ==> r.value.stored.Valid() && AllWidth(r.value.current, n) && DictWidth(r.value.stored, n)
  {
    var g :- GroupRows(t.rows, Reach(t), n);
    if |t.rows| < RowsRead(t) then Err(AttributeError) else Ok(g)
  }

  /** What `_table2rules` returns. */
  ghost function Table2RulesSpec(t: Table, n: nat): (r: Result<Dict<int, seq<Rule>>>)
    ensures r.Ok? ==> r.value.Valid() && DictWidth(r.value, n)
  {
    if t.rows == [] then Err(AttributeError)
    else
      var g :- Grouped(t, n);
      Ok(Close(g))
  }

  /** One row of the loop in `_table2rules`: a row of the current class builds
      and appends its rule, a row of another class stores the current group and
      looks up the group of the class before the new one. */
  method AdvanceRow(g: Grouping, row: TableRow, n: nat) returns (r: Result<Grouping>)
    requires g.stored.Valid() && AllWidth(g.current, n) && DictWidth(g.stored, n)
    ensures r == Advance(g, row, n)
  {
    var nidx := ClassTag(row.tag);
    if nidx.Err? {
      return Err(nidx.error);
    }
    if g.idx == nidx.value {
      var rule := BuildRule(row.text, n);
      if rule.Err? {
        return Err(rule.error);
      }
      return Ok(Grouping(g.idx, g.current + [rule.value], g.stored));
    }
    var stored := g.stored.Put(g.idx, g.current);
    if nidx.value - 1 !in stored.entries {
      return Err(KeyError);
    }
    return Ok(Grouping(nidx.value, [], stored));
  }

  /** The first row of `_table2rules`: its class opens the first group, and its
      rule is built. */
  method StartGroup(row: TableRow, n: nat) returns (r: Result<Grouping>)
    ensures r == First(row, n)
  {
    var tag := ClassTag(row.tag);
    if tag.Err? {
      return Err(tag.error);
    }
    var rule := BuildRule(row.text, n);
    if rule.Err? {
      return Err(rule.error);
    }
    return Ok(Grouping(tag.value, [rule.value], Empty()));
  }

  /** `RulesParser._table2rules`. */
  method Table2Rules(t: Table, n: nat) returns (r: Result<Dict<int, seq<Rule>>>)
    ensures r == Table2RulesSpec(t, n)
  {
    if t.rows == [] {
      return Err(AttributeError);
    }
    var g := GroupTable(t, n);
    if g.Err? {
      return Err(g.error);
    }
    return Ok(Close(g.value));
  }

  /** The row loop of `_table2rules`: the first row opens a group, the next
      `nrules - 1` rows continue or switch it. */
  method GroupTable(t: Table, n: nat) returns (r: Result<Grouping>)
    requires t.rows != []
    ensures r == Grouped(t, n)
  {
    ghost var reach := Reach(t);
    var first := StartGroup(t.rows[0], n);
    if first.Err? {
      GroupRowsErrPersists(t.rows, n, 1, reach, first.error);
      return Err(first.error);
    }
    var idx, crules, rules := first.value.idx, first.value.current, first.value.stored;
    var i := 1;
    while i < t.nrules
      invariant 1 <= i <= reach
      invariant GroupRows(t.rows, i, n) == Ok(Grouping(idx, crules, rules))
    {
      if i >= |t.rows| {
        return Err(AttributeError);
      }
      var g := Grouping(idx, crules, rules);
      GroupRowsStep(t.rows, n, i, g);
      var next := AdvanceRow(g, t.rows[i], n);
      if next.Err? {
        GroupRowsErrPersists(t.rows, n, i + 1, reach, next.error);
        return Err(next.error);
      }
      idx, crules, rules := next.value.idx, next.value.current, next.value.stored;
      i := i + 1;
    }
    return Ok(Grouping(idx, crules, rules));
  }

  /** The rules that the rows' texts build, when every one builds. */
  ghost predicate BuildsAll(rows: seq<TableRow>, n: nat, rules: seq<Rule>) {
    |rules| == |rows| && forall i :: 0 <= i < |rows| ==> BuildRuleSpec(rows[i].text, n) == Ok(rules[i])
  }

  lemma {:induction false} GroupRowsOneClass(rows: seq<TableRow>, n: nat, d: Digit, rules: seq<Rule>, k: nat)
    requires 1 <= k <= |rows|
    requires forall i :: 0 <= i < |rows| ==> rows[i].tag != [] && rows[i].tag[|rows[i].tag| - 1] == d
    requires BuildsAll(rows, n, rules)
    ensures GroupRows(rows, k, n) == Ok(Grouping(d as int, rules[..k], Empty()))
  {
    if k > 1 {
      GroupRowsOneClass(rows, n, d, rules, k - 1);
      assert rules[..k - 1] + [rules[k - 1]] == rules[..k];
    } else {
      assert rules[..1] == [rules[0]];
    }
  }

  /** A table whose rows all carry one class yields that single class with the
      rules of all rows, in order. */
  lemma Table2RulesOneClass(t: Table, n: nat, d: Digit, rules: seq<Rule>)
    requires t.rows != [] && |t.rows| == RowsRead(t)
    requires forall i :: 0 <= i < |t.rows| ==> t.rows[i].tag != [] && t.rows[i].tag[|t.rows[i].tag| - 1] == d
    requires BuildsAll(t.rows, n, rules)
    ensures Table2RulesSpec(t, n) == Ok(Dict([d as int], map[d as int := rules]))
  {
    GroupRowsOneClass(t.rows, n, d, rules, |t.rows|);
    assert rules[..|t.rows|] == rules;
    assert Empty<int, seq<Rule>>().Put(d as int, rules) == Dict([d as int], map[d as int := rules]);
  }

  /** At a class switch the switching row's rule is dropped, and its text is never
      even parsed: rows (class 1, rule a), (class 2, anything) give class 1 with
      [a] and class 2 with no rules. */
  lemma Table2RulesSwitchDropsRow(a: TableRow, b: TableRow, n: nat, ruleA: Rule)
    requires a.tag == [1] && b.tag == [2]
    requires BuildRuleSpec(a.text, n) == Ok(ruleA)
    ensures Table2RulesSpec(Table(2, [a, b]), n) == Ok(Dict([1, 2], map[1 := [ruleA], 2 := []]))
  {
    var rows := [a, b];
    assert First(a, n) == Ok(Grouping(1, [ruleA], Empty()));
    assert Empty<int, seq<Rule>>().Put(1, [ruleA]) == Dict([1], map[1 := [ruleA]]);
    assert GroupRows(rows, 2, n) == Ok(Grouping(2, [], Dict([1], map[1 := [ruleA]])));
    assert Dict([1], map[1 := [ruleA]]).Put(2, []) == Dict([1, 2], map[1 := [ruleA], 2 := []]);
  }

  /** A switch that skips a class number raises: rows of class 1 followed by a row
      of class 3 look up the group of class 2, which was never stored. */
  lemma Table2RulesSkippedClassFails(a: TableRow, b: TableRow, n: nat, ruleA: Rule)
    requires a.tag == [1] && b.tag == [3]
    requires BuildRuleSpec(a.text, n) == Ok(ruleA)
    ensures Table2RulesSpec(Table(2, [a, b]), n) == Err(KeyError)
  {
    assert First(a, n) == Ok(Grouping(1, [ruleA], Empty()));
    assert Empty<int, seq<Rule>>().Put(1, [ruleA]) == Dict([1], map[1 := [ruleA]]);
    assert GroupRows([a, b], 2, n) == Err(KeyError);
  }

  /** Rows that agree on their first k entries group alike up to row k. */
  lemma {:induction false} GroupRowsPrefix(rows: seq<TableRow>, other: seq<TableRow>, n: nat, k: nat)
    requires 1 <= k <= |rows| && k <= |other| && rows[..k] == other[..k]
    ensures GroupRows(rows, k, n) == GroupRows(other, k, n)
  {
    assert rows[k - 1] == rows[..k][k - 1] == other[..k][k - 1] == other[k - 1];
    if k > 1 {
      assert rows[..k - 1] == rows[..k][..k - 1] == other[..k][..k - 1] == other[..k - 1];
      GroupRowsPrefix(rows, other, n, k - 1);
    }
  }

  /** Any row of the current class, after any prefix: its rule is appended to
      the current group, or its rule's error is raised. */
  lemma GroupRowsContinue(rows: seq<TableRow>, n: nat, k: nat)
    requires 1 <= k < |rows| && GroupRows(rows, k, n).Ok?
    requires ClassTag(rows[k].tag) == Ok(GroupRows(rows, k, n).value.idx)
    ensures var g := GroupRows(rows, k, n).value;
            match BuildRuleSpec(rows[k].text, n)
            case Ok(rule) => GroupRows(rows, k + 1, n) == Ok(Grouping(g.idx, g.current + [rule], g.stored))
            case Err(e) => GroupRows(rows, k + 1, n) == Err(e)
  {
  }

  /** Any class switch, after any prefix: the group just closed is stored under
      its class and the other stored groups stay; the new group starts empty,
      unless the class before the new one was never stored, which raises
      KeyError; and the switching row's text plays no part in either outcome. */
  lemma GroupRowsSwitch(rows: seq<TableRow>, n: nat, k: nat)
    requires 1 <= k < |rows| && GroupRows(rows, k, n).Ok? && ClassTag(rows[k].tag).Ok?
    requires ClassTag(rows[k].tag).value != GroupRows(rows, k, n).value.idx
    ensures var g := GroupRows(rows, k, n).value;
            var tag := ClassTag(rows[k].tag).value;
            var stored := g.stored.Put(g.idx, g.current);
            && stored.entries[g.idx] == g.current
            && (forall c :: c in g.stored.entries && c != g.idx ==> stored.entries[c] == g.stored.entries[c])
            && (tag - 1 in stored.entries ==> GroupRows(rows, k + 1, n) == Ok(Grouping(tag, [], stored)))
            && (tag - 1 !in stored.entries ==> GroupRows(rows, k + 1, n) == Err(KeyError))
  {
  }

  /** At a class switch the switching row's text is never read: replacing it
      changes nothing. */
  lemma GroupRowsSwitchIgnoresText(rows: seq<TableRow>, n: nat, k: nat, text: seq<Fragment>)
    requires 1 <= k < |rows| && GroupRows(rows, k, n).Ok? && ClassTag(rows[k].tag).Ok?
    requires ClassTag(rows[k].tag).value != GroupRows(rows, k, n).value.idx
    ensures GroupRows(rows[k := TableRow(rows[k].tag, text)], k + 1, n) == GroupRows(rows, k + 1, n)
  {
    var other := rows[k := TableRow(rows[k].tag, text)];
    assert other[..k] == rows[..k];
    GroupRowsPrefix(other, rows, n, k);
    var g := GroupRows(rows, k, n).value;
    AdvanceSwitchIgnoresText(g, rows[k], text, n);
    assert GroupRows(other, k + 1, n) == Advance(g, other[k], n);
  }

  /** A switching row's text does not enter the step. */
  lemma AdvanceSwitchIgnoresText(g: Grouping, row: TableRow, text: seq<Fragment>, n: nat)
    requires g.stored.Valid() && AllWidth(g.current, n) && DictWidth(g.stored, n)
    requires ClassTag(row.tag).Ok? && ClassTag(row.tag).value != g.idx
    ensures Advance(g, TableRow(row.tag, text), n) == Advance(g, row, n)
  {
  }

  lemma {:induction false} GroupRowsTags(rows: seq<TableRow>, k: nat, n: nat)
    requires 1 <= k <= |rows| && GroupRows(rows, k, n).Ok?
    ensures exists i :: 0 <= i < k && ClassTag(rows[i].tag) == Ok(GroupRows(rows, k, n).value.idx)
    ensures forall c :: c in GroupRows(rows, k, n).value.stored.entries ==>
              exists i :: 0 <= i < k && ClassTag(rows[i].tag) == Ok(c)
  {
    if k > 1 {
      GroupRowsTags(rows, k - 1, n);
    }
  }

  /** Every class of a table's dictionary is the tag of one of the rows read. */
  lemma Table2RulesKeysAreTags(t: Table, n: nat, k: int)
    requires Table2RulesSpec(t, n).Ok? && k in Table2RulesSpec(t, n).value.entries
    ensures exists i :: 0 <= i < |t.rows| && ClassTag(t.rows[i].tag) == Ok(k)
  {
    GroupRowsTags(t.rows, Reach(t), n);
  }

  // ----- RulesParser: merging the tables -----

  /** The dictionary's list for a known class after `if rule not in ...: append(rule)`
      for every incoming rule in order. */
  function MergeRules(existing: seq<Rule>, incoming: seq<Rule>): seq<Rule> {
    if incoming == [] then existing
    else
      var m := MergeRules(existing, incoming[..|incoming| - 1]);
      var x := incoming[|incoming| - 1];
      if x in m then m else m + [x]
  }

  /** The known rules stay in front, in order; afterwards the list holds exactly the
      rules that were known or incoming. */
  lemma {:induction false} MergeRulesMembers(existing: seq<Rule>, incoming: seq<Rule>)
    ensures existing <= MergeRules(existing, incoming)
    ensures forall x :: x in MergeRules(existing, incoming) <==> x in existing || x in incoming
  {
    if incoming != [] {
      var init := incoming[..|incoming| - 1];
      MergeRulesMembers(existing, init);
      assert incoming == init + [incoming[|incoming| - 1]];
    }
  }

  /** No rule occurs twice. */
  ghost predicate NoDuplicates(rules: seq<Rule>) {
    forall i, j :: 0 <= i < j < |rules| ==> rules[i] != rules[j]
  }

  /** Merging adds no duplicates to a list that has none. */
  lemma {:induction false} MergeRulesNoDuplicates(existing: seq<Rule>, incoming: seq<Rule>)
    requires NoDuplicates(existing)
    ensures NoDuplicates(MergeRules(existing, incoming))
  {
    if incoming != [] {
      MergeRulesNoDuplicates(existing, incoming[..|incoming| - 1]);
    }
  }

  /** The merged dictionary after the first c classes of table t. */
  ghost function MergeInto(acc: Dict<int, seq<Rule>>, t: Dict<int, seq<Rule>>, c: nat): Dict<int, seq<Rule>>
    requires t.Valid() && c <= |t.keys|
  {
    if c == 0 then acc
    else
      var d := MergeInto(acc, t, c - 1);
      var key := t.keys[c - 1];
      if key in d.entries then d.Put(key, MergeRules(d.entries[key], t.entries[key]))
      else d.Put(key, t.entries[key])
  }

  lemma {:induction false} MergeIntoValid(acc: Dict<int, seq<Rule>>, t: Dict<int, seq<Rule>>, c: nat)
    requires acc.Valid() && t.Valid() && c <= |t.keys|
    ensures MergeInto(acc, t, c).Valid()
  {
    if c > 0 {
      MergeIntoValid(acc, t, c - 1);
    }
  }

  lemma {:induction false} MergeIntoAt(acc: Dict<int, seq<Rule>>, t: Dict<int, seq<Rule>>, c: nat, k: int)
    requires acc.Valid() && t.Valid() && c <= |t.keys|
    ensures k in MergeInto(acc, t, c).entries <==> k in acc.entries || k in t.keys[..c]
    ensures k in acc.entries && k !in t.keys[..c] ==> MergeInto(acc, t, c).entries[k] == acc.entries[k]
    ensures k in t.keys[..c] && k in acc.entries ==>
              MergeInto(acc, t, c).entries[k] == MergeRules(acc.entries[k], t.entries[k])
    ensures k in t.keys[..c] && k !in acc.entries ==> MergeInto(acc, t, c).entries[k] == t.entries[k]
  {
    if c > 0 {
      MergeIntoAt(acc, t, c - 1, k);
      KeyNotInPrefix(t, c - 1);
      var key := t.keys[c - 1];
      assert t.keys[..c] == t.keys[..c - 1] + [key];
      assert k in t.keys[..c] <==> k in t.keys[..c - 1] || k == key;
      var d := MergeInto(acc, t, c - 1);
      if k == key {
        assert key in d.entries <==> key in acc.entries;
      }
    }
  }

  /** Merging a table: a known class receives the table's rules that it does not
      hold yet, an unseen class takes the table's list unchanged, others keep theirs. */
  lemma MergeTable(acc: Dict<int, seq<Rule>>, t: Dict<int, seq<Rule>>, k: int)
    requires acc.Valid() && t.Valid()
    ensures var d := MergeInto(acc, t, |t.keys|);
            && (k in d.entries <==> k in acc.entries || k in t.entries)
            && (k in acc.entries && k in t.entries ==> d.entries[k] == MergeRules(acc.entries[k], t.entries[k]))
            && (k in acc.entries && k !in t.entries ==> d.entries[k] == acc.entries[k])
            && (k !in acc.entries && k in t.entries ==> d.entries[k] == t.entries[k])
  {
    MergeIntoAt(acc, t, |t.keys|, k);
    assert t.keys[..|t.keys|] == t.keys;
  }

  /** What `_table2rules` makes of each table. */
  ghost function ParsedTables(tables: seq<Table>, n: nat): (p: seq<Result<Dict<int, seq<Rule>>>>)
    ensures |p| == |tables| && AllValid(p)
    ensures forall i :: 0 <= i < |tables| ==> p[i] == Table2RulesSpec(tables[i], n)
  {
    seq(|tables|, i requires 0 <= i < |tables| => Table2RulesSpec(tables[i], n))
  }

  /** Every dictionary that was parsed is valid. */
  ghost predicate AllValid(p: seq<Result<Dict<int, seq<Rule>>>>) {
    forall i :: 0 <= i < |p| && p[i].Ok? ==> p[i].value.Valid()
  }

  /** The rules dictionary after the first k parsed tables; the first failing
      table decides the error. */
  ghost function FoldTables(p: seq<Result<Dict<int, seq<Rule>>>>, k: nat): (r: Result<Dict<int, seq<Rule>>>)
    requires k <= |p| && AllValid(p)
    ensures r.Ok? ==> r.value.Valid()
  {
    if k == 0 then Ok(Empty())
    else
      var acc :- FoldTables(p, k - 1);
      var t :- p[k - 1];
      Ok(Merged(acc, t))
  }

  /** The merged dictionary after the whole of table t. */
  ghost function Merged(acc: Dict<int, seq<Rule>>, t: Dict<int, seq<Rule>>): (d: Dict<int, seq<Rule>>)
    requires acc.Valid() && t.Valid()
    ensures d.Valid()
  {
    MergeIntoValid(acc, t, |t.keys|);
    MergeInto(acc, t, |t.keys|)
  }

  /** What `RulesParser.__init__` leaves in `self.rules`: at least one table is
      asserted, and the tables are merged in document order. */
  ghost function RulesTablesSpec(tables: seq<Table>, n: nat): Result<Dict<int, seq<Rule>>> {
    if tables == [] then Err(AssertionError) else FoldTables(ParsedTables(tables, n), |tables|)
  }

  lemma {:induction false} FoldTablesErrPersists(p: seq<Result<Dict<int, seq<Rule>>>>, k: nat, e: Error)
    requires k <= |p| && AllValid(p) && FoldTables(p, k) == Err(e)
    ensures FoldTables(p, |p|) == Err(e)
    decreases |p| - k
  {
    if k < |p| {
      FoldTablesErrPersists(p, k + 1, e);
    }
  }

  /** The innermost loop of `RulesParser.__init__` for a known class. */
  method AppendNew(existing: seq<Rule>, incoming: seq<Rule>) returns (list: seq<Rule>)
    ensures list == MergeRules(existing, incoming)
  {
    list := existing;
    var e := 0;
    while e < |incoming|
      invariant 0 <= e <= |incoming|
      invariant list == MergeRules(existing, incoming[..e])
    {
      assert incoming[..e + 1][..e] == incoming[..e];
      if incoming[e] !in list {
        list := list + [incoming[e]];
      }
      e := e + 1;
    }
    assert incoming[..e] == incoming;
  }

  /** The loop over the classes of one table in `RulesParser.__init__`. */
  method MergeTableInto(acc: Dict<int, seq<Rule>>, table: Dict<int, seq<Rule>>) returns (rules: Dict<int, seq<Rule>>)
    requires table.Valid()
    ensures rules == MergeInto(acc, table, |table.keys|)
  {
    rules := acc;
    var c := 0;
    while c < |table.keys|
      invariant 0 <= c <= |table.keys|
      invariant rules == MergeInto(acc, table, c)
    {
      var key := table.keys[c];
      KeyNotInPrefix(table, c);
      if key in rules.entries {
        var list := AppendNew(rules.entries[key], table.entries[key]);
        rules := rules.Put(key, list);
      } else {
        rules := rules.Put(key, table.entries[key]);
      }
      c := c + 1;
    }
  }

  /** One table of `RulesParser.__init__`: parses it and merges its classes. */
  method MergeStep(ghost p: seq<Result<Dict<int, seq<Rule>>>>, k: nat, rules: Dict<int, seq<Rule>>, table: Table, n: nat)
    returns (r: Result<Dict<int, seq<Rule>>>)
    requires k < |p| && AllValid(p) && p[k] == Table2RulesSpec(table, n) && FoldTables(p, k) == Ok(rules)
    ensures r == FoldTables(p, k + 1)
  {
    var t := Table2Rules(table, n);
    if t.Err? {
      return Err(t.error);
    }
    var merged := MergeTableInto(rules, t.value);
    return Ok(merged);
  }

  /** `RulesParser.__init__`: merges the dictionaries of all tables. */
  method MergeTables(tables: seq<Table>, n: nat) returns (r: Result<Dict<int, seq<Rule>>>)
    ensures r == RulesTablesSpec(tables, n)
  {
    if tables == [] {
      return Err(AssertionError);
    }
    ghost var p := ParsedTables(tables, n);
    var rules: Dict<int, seq<Rule>> := Empty();
    var k := 0;
    while k < |tables|
      invariant 0 <= k <= |tables|
      invariant FoldTables(p, k) == Ok(rules)
    {
      var step := MergeStep(p, k, rules, tables[k], n);
      if step.Err? {
        FoldTablesErrPersists(p, k + 1, step.error);
        return Err(step.error);
      }
      rules := step.value;
      k := k + 1;
    }
    return Ok(rules);
  }

  // ----- ClassRulesParser: one section per class -----

  /** A rule row of a class section: its cells, the third holding the rule text. */
  datatype ClassRow = ClassRow(cells: seq<seq<Fragment>>)

  /** The rules of one section: every row must have four cells; the rule is built
      from the third one (feature letter `x`, delimiter `<`). */
  ghost function SectionSpec(rows: seq<ClassRow>, n: nat): (r: Result<seq<Rule>>)
    ensures r.Ok? ==> |r.value| == |rows| && AllWidth(r.value, n)
  {
    if rows == [] then Ok([])
    else
      var rules :- SectionSpec(rows[..|rows| - 1], n);
      var row := rows[|rows| - 1];
      if |row.cells| != 4 then Err(AssertionError)
      else
        var rule :- BuildRuleSpec(row.cells[2], n);
        Ok(rules + [rule])
  }

  /** The dictionary after the first k sections: section i is class i + 1. */
  ghost function SectionsFold(sections: seq<seq<ClassRow>>, n: nat, k: nat): (r: Result<Dict<int, seq<Rule>>>)
    requires k <= |sections|
    ensures r.Ok? ==> r.value.Valid() && r.value.keys == seq(k, i => i + 1) && DictWidth(r.value, n)
    ensures r.Ok? ==> forall i :: 1 <= i <= k ==> i in r.value.entries
  {
    if k == 0 then Ok(Empty())
    else
      var d :- SectionsFold(sections, n, k - 1);
      var rules :- SectionSpec(sections[k - 1], n);
      assert k !in d.entries;
      assert d.keys + [k] == seq(k, i => i + 1);
      Ok(d.Put(k, rules))
  }

  /** What `ClassRulesParser.__init__` leaves in `self.rules`: exactly nclasses
      sections are asserted. */
  ghost function ClassSectionsSpec(sections: seq<seq<ClassRow>>, nclasses: int, n: nat): Result<Dict<int, seq<Rule>>> {
    if |sections| != nclasses then Err(AssertionError) else SectionsFold(sections, n, |sections|)
  }

  lemma {:induction false} SectionsFoldEntries(sections: seq<seq<ClassRow>>, n: nat, k: nat, i: int)
    requires k <= |sections| && SectionsFold(sections, n, k).Ok? && 0 <= i < k
    ensures SectionSpec(sections[i], n).Ok?
    ensures SectionsFold(sections, n, k).value.entries[i + 1] == SectionSpec(sections[i], n).value
  {
    if i < k - 1 {
      SectionsFoldEntries(sections, n, k - 1, i);
    }
  }

  /** Sections are labelled 1..nclasses by position, each with its own rules. */
  lemma ClassSectionsLabels(sections: seq<seq<ClassRow>>, nclasses: int, n: nat, i: int)
    requires ClassSectionsSpec(sections, nclasses, n).Ok? && 0 <= i < nclasses
    ensures SectionSpec(sections[i], n).Ok?
    ensures ClassSectionsSpec(sections, nclasses, n).value.keys == seq(nclasses, q => q + 1)
    ensures ClassSectionsSpec(sections, nclasses, n).value.entries[i + 1] == SectionSpec(sections[i], n).value
  {
    SectionsFoldEntries(sections, n, |sections|, i);
  }

  lemma {:induction false} SectionErrPersists(rows: seq<ClassRow>, n: nat, k: nat, e: Error)
    requires k <= |rows| && SectionSpec(rows[..k], n) == Err(e)
    ensures SectionSpec(rows, n) == Err(e)
    decreases |rows| - k
  {
    if k < |rows| {
      assert rows[..k + 1][..k] == rows[..k];
      SectionErrPersists(rows, n, k + 1, e);
    } else {
      assert rows[..k] == rows;
    }
  }

  lemma {:induction false} SectionsFoldErrPersists(sections: seq<seq<ClassRow>>, n: nat, k: nat, e: Error)
    requires k <= |sections| && SectionsFold(sections, n, k) == Err(e)
    ensures SectionsFold(sections, n, |sections|) == Err(e)
    decreases |sections| - k
  {
    if k < |sections| {
      SectionsFoldErrPersists(sections, n, k + 1, e);
    }
  }

  /** The loop over the rule rows of one section. */
  method SectionRules(rows: seq<ClassRow>, n: nat) returns (r: Result<seq<Rule>>)
    ensures r == SectionSpec(rows, n)
  {
    var crules: seq<Rule> := [];
    var k := 0;
    while k < |rows|
      invariant 0 <= k <= |rows|
      invariant SectionSpec(rows[..k], n) == Ok(crules)
    {
      assert rows[..k + 1][..k] == rows[..k];
      var row := rows[k];
      if |row.cells| != 4 {
        SectionErrPersists(rows, n, k + 1, AssertionError);
        return Err(AssertionError);
      }
      var rule := BuildRule(row.cells[2], n);
      if rule.Err? {
        SectionErrPersists(rows, n, k + 1, rule.error);
        return Err(rule.error);
      }
      assert |rule.value| == n;
      crules := crules + [rule.value];
      k := k + 1;
    }
    assert rows[..k] == rows;
    return Ok(crules);
  }

  /** `ClassRulesParser.__init__`: one dictionary entry per class section. */
  method ClassSections(sections: seq<seq<ClassRow>>, nclasses: int, n: nat) returns (r: Result<Dict<int, seq<Rule>>>)
    ensures r == ClassSectionsSpec(sections, nclasses, n)
  {
    if |sections| != nclasses {
      return Err(AssertionError);
    }
    var rules: Dict<int, seq<Rule>> := Empty();
    var i := 0;
    while i < |sections|
      invariant 0 <= i <= |sections|
      invariant SectionsFold(sections, n, i) == Ok(rules)
    {
      var crules := SectionRules(sections[i], n);
      if crules.Err? {
        SectionsFoldErrPersists(sections, n, i + 1, crules.error);
        return Err(crules.error);
      }
      rules := rules.Put(i + 1, crules.value);
      i := i + 1;
    }
    return Ok(rules);
  }

  // ----- The parsed report: what the two parsers leave behind -----

  /** The rules of one class as a parser stores them (a list of rules) or as
      the rule preprocessing rewrites them in place (one flattened row per rule,
      `[lo0, hi0, lo1, hi1, ...]`). */
  datatype RuleSet = Parsed(rules: seq<Rule>) | Matrix(rows: seq<seq<Bound>>)

  /** The parsed dictionary, every class holding its list of parsed rules. */
  function AsParsed(d: Dict<int, seq<Rule>>): (s: Dict<int, RuleSet>)
    ensures s.keys == d.keys
    ensures forall k :: k in d.entries <==> k in s.entries
    ensures forall k :: k in d.entries ==> s.entries[k] == Parsed(d.entries[k])
    ensures d.Valid() ==> s.Valid()
  {
    Dict(d.keys, map k | k in d.entries :: Parsed(d.entries[k]))
  }

  /** A parsed report: the feature and class counts of the header and the rules of
      each class. The rules are shared with, and rewritten by, the rule
      preprocessing. */
  class Report {
    const nfeatures: int
    const nclasses: int
    var rules: Dict<int, RuleSet>

    constructor (nfeatures: int, nclasses: int, rules: Dict<int, RuleSet>)
      ensures this.nfeatures == nfeatures && this.nclasses == nclasses && this.rules == rules
    {
      this.nfeatures := nfeatures;
      this.nclasses := nclasses;
      this.rules := rules;
    }
  }

  /** The header check of `ReportParser.__init__`. */
  predicate HeaderOk(nfeatures: int, nclasses: int) {
    nclasses >= 1 && nfeatures >= 1
  }

  /** `RulesParser(fname)`: the header, then at least one rule table. */
  method NewRulesParser(nfeatures: int, nclasses: int, tables: seq<Table>) returns (r: Result<Report>)
    ensures r.Ok? <==> HeaderOk(nfeatures, nclasses) && RulesTablesSpec(tables, nfeatures as nat).Ok?
    ensures !HeaderOk(nfeatures, nclasses) ==> r == Err(AssertionError)
    ensures HeaderOk(nfeatures, nclasses) && r.Err? ==> r.error == RulesTablesSpec(tables, nfeatures as nat).error
    ensures r.Ok? ==> && fresh(r.value)
                      && r.value.nfeatures == nfeatures && r.value.nclasses == nclasses
                      && r.value.rules == AsParsed(RulesTablesSpec(tables, nfeatures as nat).value)
                      && r.value.rules.Valid()
  {
    if !HeaderOk(nfeatures, nclasses) {
      return Err(AssertionError);
    }
    var rules := MergeTables(tables, nfeatures as nat);
    if rules.Err? {
      return Err(rules.error);
    }
    var rep := new Report(nfeatures, nclasses, AsParsed(rules.value));
    return Ok(rep);
  }

  /** `ClassRulesParser(fname)`: the header, then one section per class. */
  method NewClassRulesParser(nfeatures: int, nclasses: int, sections: seq<seq<ClassRow>>) returns (r: Result<Report>)
    ensures r.Ok? <==> HeaderOk(nfeatures, nclasses) && ClassSectionsSpec(sections, nclasses, nfeatures as nat).Ok?
    ensures !HeaderOk(nfeatures, nclasses) ==> r == Err(AssertionError)
    ensures HeaderOk(nfeatures, nclasses) && r.Err? ==> r.error == ClassSectionsSpec(sections, nclasses, nfeatures as nat).error
    ensures r.Ok? ==> && fresh(r.value)
                      && r.value.nfeatures == nfeatures && r.value.nclasses == nclasses
                      && r.value.rules == AsParsed(ClassSectionsSpec(sections, nclasses, nfeatures as nat).value)
                      && r.value.rules.Valid()
  {
    if !HeaderOk(nfeatures, nclasses) {
      return Err(AssertionError);
    }
    var rules := ClassSections(sections, nclasses, nfeatures as nat);
    if rules.Err? {
      return Err(rules.error);
    }
    var rep := new Report(nfeatures, nclasses, AsParsed(rules.value));
    return Ok(rep);
  }
}
