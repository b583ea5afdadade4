/** The rule preprocessing step (`ProcRules.__init__`): checks that the data and
    the rules agree on their classes, computes the per-feature minimum and maximum
    over every example, and rewrites the parser's rules in place into flattened
    rows whose infinite bounds are replaced by those data bounds. */
module ProcRules {
  import opened Results
  import opened Dicts
  import opened Bounds
  import opened RepPar
  import TabPar

  type Examples = seq<seq<real>>

  // ----- Per-feature bounds of the data -----

  /** Every example has F values. */
  ghost predicate Width(rows: Examples, F: nat) {
    forall r :: 0 <= r < |rows| ==> |rows[r]| == F
  }

  /** lo and hi bound every example feature by feature. */
  ghost predicate Encloses(lo: seq<real>, hi: seq<real>, rows: Examples)
    requires |lo| == |hi| && Width(rows, |lo|)
  {
    forall r, f :: 0 <= r < |rows| && 0 <= f < |lo| ==> lo[f] <= rows[r][f] <= hi[f]
  }

  /** Every entry of lo and of hi is the value of some example. */
  ghost predicate Tight(lo: seq<real>, hi: seq<real>, rows: Examples)
    requires |lo| == |hi| && Width(rows, |lo|)
  {
    forall f :: 0 <= f < |lo| ==>
      (exists r :: 0 <= r < |rows| && rows[r][f] == lo[f]) && (exists r :: 0 <= r < |rows| && rows[r][f] == hi[f])
  }

  /** `np.min(np.array((a, b)), 0)`. */
  function ElemMin(a: seq<real>, b: seq<real>): (m: seq<real>)
    requires |a| == |b|
    ensures |m| == |a|
    ensures forall f :: 0 <= f < |a| ==> m[f] <= a[f] && m[f] <= b[f] && (m[f] == a[f] || m[f] == b[f])
  {
    seq(|a|, f requires 0 <= f < |a| => if a[f] <= b[f] then a[f] else b[f])
  }

  /** `np.max(np.array((a, b)), 0)`. */
  function ElemMax(a: seq<real>, b: seq<real>): (m: seq<real>)
    requires |a| == |b|
    ensures |m| == |a|
    ensures forall f :: 0 <= f < |a| ==> a[f] <= m[f] && b[f] <= m[f] && (m[f] == a[f] || m[f] == b[f])
  {
    seq(|a|, f requires 0 <= f < |a| => if a[f] >= b[f] then a[f] else b[f])
  }

  /** The examples of the first n classes, in the dictionary's order. */
  ghost function ExamplesOf(data: Dict<int, Examples>, n: nat): Examples
    requires data.Valid() && n <= |data.keys|
  {
    if n == 0 then [] else ExamplesOf(data, n - 1) + data.entries[data.keys[n - 1]]
  }

  /** Every example of every class, hole rows included. */
  ghost function AllExamples(data: Dict<int, Examples>): Examples
    requires data.Valid()
  {
    ExamplesOf(data, |data.keys|)
  }

  lemma {:induction false} ExamplesPrefix(data: Dict<int, Examples>, c: nat, n: nat)
    requires data.Valid() && c <= n <= |data.keys|
    ensures |ExamplesOf(data, c)| <= |ExamplesOf(data, n)|
    ensures forall i :: 0 <= i < |ExamplesOf(data, c)| ==> ExamplesOf(data, c)[i] == ExamplesOf(data, n)[i]
    decreases n - c
  {
    if c < n {
      ExamplesPrefix(data, c, n - 1);
    }
  }

  /** Row j of class c is example number |ExamplesOf(data, c)| + j when all
      classes are read. */
  lemma ExampleAt(data: Dict<int, Examples>, c: nat, j: nat)
    requires data.Valid() && c < |data.keys| && j < |data.entries[data.keys[c]]|
    ensures |ExamplesOf(data, c)| + j < |AllExamples(data)|
    ensures AllExamples(data)[|ExamplesOf(data, c)| + j] == data.entries[data.keys[c]][j]
  {
    ExamplesPrefix(data, c + 1, |data.keys|);
  }

  /** The loop invariant of the running minimum and maximum: lo and hi start at x,
      bound every example seen, and each of their entries is x's or a seen one's. */
  ghost predicate Running(x: seq<real>, lo: seq<real>, hi: seq<real>, seen: Examples) {
    && |lo| == |x| && |hi| == |x| && Width(seen, |x|)
    && Encloses(lo, hi, seen)
    && (forall f :: 0 <= f < |x| ==> lo[f] <= x[f] <= hi[f])
    && (forall f :: 0 <= f < |x| ==> lo[f] == x[f] || exists r :: 0 <= r < |seen| && seen[r][f] == lo[f])
    && (forall f :: 0 <= f < |x| ==> hi[f] == x[f] || exists r :: 0 <= r < |seen| && seen[r][f] == hi[f])
  }

  lemma RunningStep(x: seq<real>, lo: seq<real>, hi: seq<real>, seen: Examples, y: seq<real>)
    requires Running(x, lo, hi, seen) && |y| == |x|
    ensures Running(x, ElemMin(lo, y), ElemMax(hi, y), seen + [y])
  {
    var lo', hi', seen' := ElemMin(lo, y), ElemMax(hi, y), seen + [y];
    forall f | 0 <= f < |x|
      ensures lo'[f] == x[f] || exists r :: 0 <= r < |seen'| && seen'[r][f] == lo'[f]
      ensures hi'[f] == x[f] || exists r :: 0 <= r < |seen'| && seen'[r][f] == hi'[f]
    {
      if lo'[f] != x[f] {
        if lo'[f] == y[f] {
          assert seen'[|seen|][f] == lo'[f];
        } else {
          var r :| 0 <= r < |seen| && seen[r][f] == lo[f];
          assert seen'[r][f] == lo'[f];
        }
      }
      if hi'[f] != x[f] {
        if hi'[f] == y[f] {
          assert seen'[|seen|][f] == hi'[f];
        } else {
          var r :| 0 <= r < |seen| && seen[r][f] == hi[f];
          assert seen'[r][f] == hi'[f];
        }
      }
    }
  }

  /** The lower and upper data bounds. */
  datatype Box = Box(lo: seq<real>, hi: seq<real>)

  /** Lines 28-37: the running minimum and maximum, started at x (an example)
      and updated with every example of every class. Examples of another length
      than x make numpy refuse to stack them. */
  method MinMax(data: Dict<int, Examples>, x: seq<real>) returns (r: Result<Box>)
    requires data.Valid() && x in AllExamples(data)
    ensures r.Ok? <==> Width(AllExamples(data), |x|)
    ensures r.Err? ==> r.error == ValueError
    ensures r.Ok? ==> && |r.value.lo| == |x| && |r.value.hi| == |x|
                      && Encloses(r.value.lo, r.value.hi, AllExamples(data))
                      && Tight(r.value.lo, r.value.hi, AllExamples(data))
  {
    var lo, hi := x, x;
    ghost var seen: Examples := [];
    var c := 0;
    while c < |data.keys|
      invariant 0 <= c <= |data.keys|
      invariant seen == ExamplesOf(data, c)
      invariant Running(x, lo, hi, seen)
    {
      var X := data.entries[data.keys[c]];
      var j := 0;
      while j < |X|
        invariant 0 <= j <= |X|
        invariant seen == ExamplesOf(data, c) + X[..j]
        invariant Running(x, lo, hi, seen)
      {
        var y := X[j];
        ExampleAt(data, c, j);
        if |y| != |x| {
          return Err(ValueError);
        }
        RunningStep(x, lo, hi, seen, y);
        lo, hi := ElemMin(lo, y), ElemMax(hi, y);
        seen := seen + [y];
        assert X[..j + 1] == X[..j] + [y];
        j := j + 1;
      }
      assert X[..j] == X;
      c := c + 1;
    }
    ghost var all := AllExamples(data);
    assert seen == all;
    ghost var rx :| 0 <= rx < |all| && all[rx] == x;
    forall f | 0 <= f < |x|
      ensures (exists r :: 0 <= r < |all| && all[r][f] == lo[f]) && (exists r :: 0 <= r < |all| && all[r][f] == hi[f])
    {
      if lo[f] == x[f] { assert all[rx][f] == lo[f]; }
      if hi[f] == x[f] { assert all[rx][f] == hi[f]; }
    }
    return Ok(Box(lo, hi));
  }

  // ----- Flattening and sentinel replacement -----

  /** Lines 39-41: `[min0, max0, min1, max1, ...]`. */
  function Interleave(lo: seq<real>, hi: seq<real>): (mm: seq<real>)
    requires |lo| == |hi|
    ensures |mm| == 2 * |lo|
    ensures forall f :: 0 <= f < |lo| ==> mm[2 * f] == lo[f] && mm[2 * f + 1] == hi[f]
  {
    if lo == [] then [] else [lo[0], hi[0]] + Interleave(lo[1..], hi[1..])
  }

  /** Lines 46-49: a rule of F intervals as a row `[lo0, hi0, lo1, hi1, ...]`. */
  function Flatten(rule: Rule): (v: seq<Bound>)
    ensures |v| == 2 * |rule|
    ensures forall f :: 0 <= f < |rule| ==> v[2 * f] == rule[f].lo && v[2 * f + 1] == rule[f].hi
  {
    if rule == [] then [] else [rule[0].lo, rule[0].hi] + Flatten(rule[1..])
  }

  /** One masked assignment of line 54: the entries equal to `target` take the
      value of minmax at the same position. */
  function Substitute(row: seq<Bound>, mm: seq<real>, target: Bound): (out: seq<Bound>)
    requires |row| == |mm|
  {
    seq(|row|, p requires 0 <= p < |row| => if row[p] == target then Fin(mm[p]) else row[p])
  }

  /** Lines 52-54: the -inf pass, then the +inf pass. */
  function Normalise(row: seq<Bound>, mm: seq<real>): (out: seq<Bound>)
    requires |row| == |mm|
  {
    Substitute(Substitute(row, mm, NegInf), mm, PosInf)
  }

  /** Finite entries are kept, each infinite one becomes minmax at its position,
      so no infinity remains. */
  lemma NormaliseEntries(row: seq<Bound>, mm: seq<real>)
    requires |row| == |mm|
    ensures |Normalise(row, mm)| == |row| && Finite(Normalise(row, mm))
    ensures forall p :: 0 <= p < |row| ==>
              Normalise(row, mm)[p] == if row[p].Fin? then row[p] else Fin(mm[p])
  {
  }

  /** A second replacement changes nothing. */
  lemma NormaliseIdempotent(row: seq<Bound>, mm: seq<real>)
    requires |row| == |mm|
    ensures Normalise(Normalise(row, mm), mm) == Normalise(row, mm)
  {
    NormaliseEntries(row, mm);
    NormaliseEntries(Normalise(row, mm), mm);
  }

  /** Lower ends are never +inf and upper ends never -inf, as in every rule the
      report parsers build. */
  predicate Oriented(v: seq<Bound>)
    requires |v| % 2 == 0
  {
    forall f :: 0 <= f < |v| / 2 ==> !v[2 * f].PosInf? && !v[2 * f + 1].NegInf?
  }

  /** x lies inside the data bounds that minmax interleaves. */
  predicate Inside(mm: seq<real>, x: seq<real>)
    requires |mm| == 2 * |x|
  {
    forall f :: 0 <= f < |x| ==> mm[2 * f] <= x[f] <= mm[2 * f + 1]
  }

  /** Replacing the sentinels by the data bounds does not change the verdict of
      the box test on any point inside those bounds, in particular on any example. */
  lemma NormaliseKeepsVerdict(v: seq<Bound>, mm: seq<real>, x: seq<real>)
    requires |v| == |mm| == 2 * |x| && Oriented(v) && Inside(mm, x)
    ensures |Normalise(v, mm)| == |v|
    ensures Accepts(Normalise(v, mm), x) <==> Accepts(v, x)
  {
    var w := Normalise(v, mm);
    NormaliseEntries(v, mm);
    forall f | 0 <= f < |x|
      ensures InInterval(w, x, f) <==> InInterval(v, x, f)
    {
      assert !v[2 * f].PosInf? && !v[2 * f + 1].NegInf?;
    }
  }

  /** A rule of proper intervals flattens to an oriented row. */
  lemma FlattenOriented(rule: Rule)
    requires forall q :: 0 <= q < |rule| ==> Proper(rule[q])
    ensures Oriented(Flatten(rule))
  {
    var v := Flatten(rule);
    forall f | 0 <= f < |v| / 2
      ensures !v[2 * f].PosInf? && !v[2 * f + 1].NegInf?
    {
      assert Proper(rule[f]);
    }
  }

  /** Every example lies inside the interleaved bounds of the data. */
  lemma ExampleInside(lo: seq<real>, hi: seq<real>, rows: Examples, r: int)
    requires |lo| == |hi| && Width(rows, |lo|) && Encloses(lo, hi, rows) && 0 <= r < |rows|
    ensures |Interleave(lo, hi)| == 2 * |rows[r]| && Inside(Interleave(lo, hi), rows[r])
  {
  }

  /** The processed form of a parsed rule accepts exactly the examples the
      parsed rule accepts. */
  lemma ProcessedRuleKeepsVerdicts(lo: seq<real>, hi: seq<real>, rows: Examples, rule: Rule, r: int)
    requires |lo| == |hi| == |rule| && Width(rows, |lo|) && Encloses(lo, hi, rows) && 0 <= r < |rows|
    requires forall q :: 0 <= q < |rule| ==> Proper(rule[q])
    ensures |Normalise(Flatten(rule), Interleave(lo, hi))| == 2 * |rows[r]|
    ensures Accepts(Normalise(Flatten(rule), Interleave(lo, hi)), rows[r]) <==> Accepts(Flatten(rule), rows[r])
  {
    FlattenOriented(rule);
    ExampleInside(lo, hi, rows, r);
    NormaliseKeepsVerdict(Flatten(rule), Interleave(lo, hi), rows[r]);
  }

  /** The scenario of a three-feature rule with one bounded feature, over data
      whose every feature ranges over [0, 10]. */
  lemma NormaliseExample()
    ensures Normalise(Flatten([Open, Interval(Fin(1.0), Fin(5.0)), Open]), Interleave([0.0, 0.0, 0.0], [10.0, 10.0, 10.0]))
            == [Fin(0.0), Fin(10.0), Fin(1.0), Fin(5.0), Fin(0.0), Fin(10.0)]
  {
    var v := Flatten([Open, Interval(Fin(1.0), Fin(5.0)), Open]);
    assert v == [NegInf, PosInf, Fin(1.0), Fin(5.0), NegInf, PosInf];
    var mm := Interleave([0.0, 0.0, 0.0], [10.0, 10.0, 10.0]);
    assert mm == [0.0, 10.0, 0.0, 10.0, 0.0, 10.0];
    NormaliseEntries(v, mm);
  }

  // ----- The class checks (lines 22-24) -----

  /** The assertions on one data class. A rewritten entry is a numpy array, whose
      truth value numpy refuses to decide. */
  function DataKeyError(data: Dict<int, Examples>, rules: Dict<int, RuleSet>, k: int): Option<Error>
    requires k in data.entries
  {
    if k !in rules.entries then Some(AssertionError)
    else if data.entries[k] == [] then Some(AssertionError)
    else if rules.entries[k].Matrix? then Some(ValueError)
    else if rules.entries[k].rules == [] then Some(AssertionError)
    else None
  }

  /** The first failing check over the data classes, in order. */
  function CheckFailure(data: Dict<int, Examples>, rules: Dict<int, RuleSet>, keys: seq<int>): Option<Error>
    requires forall i :: 0 <= i < |keys| ==> keys[i] in data.entries
  {
    if keys == [] then None
    else if DataKeyError(data, rules, keys[0]).Some? then DataKeyError(data, rules, keys[0])
    else CheckFailure(data, rules, keys[1..])
  }

  /** When the checks pass, every data class has examples and a non-empty list of
      parsed rules. */
  lemma {:induction false} CheckPassed(data: Dict<int, Examples>, rules: Dict<int, RuleSet>, keys: seq<int>)
    requires forall i :: 0 <= i < |keys| ==> keys[i] in data.entries
    requires CheckFailure(data, rules, keys) == None
    ensures forall i :: 0 <= i < |keys| ==>
              && data.entries[keys[i]] != [] && keys[i] in rules.entries
              && rules.entries[keys[i]].Parsed? && rules.entries[keys[i]].rules != []
  {
    if keys != [] {
      CheckPassed(data, rules, keys[1..]);
      forall i | 1 <= i < |keys|
        ensures keys[i] == keys[1..][i - 1]
      {
      }
    }
  }

  /** The checks over the first c data classes passed. */
  lemma CheckStep(data: Dict<int, Examples>, rules: Dict<int, RuleSet>, keys: seq<int>, c: nat)
    requires forall i :: 0 <= i < |keys| ==> keys[i] in data.entries
    requires c < |keys| && CheckFailure(data, rules, keys) == CheckFailure(data, rules, keys[c..])
    ensures DataKeyError(data, rules, keys[c]).Some? ==> CheckFailure(data, rules, keys) == DataKeyError(data, rules, keys[c])
    ensures DataKeyError(data, rules, keys[c]).None? ==> CheckFailure(data, rules, keys) == CheckFailure(data, rules, keys[c + 1..])
  {
    assert keys[c..][1..] == keys[c + 1..];
  }

  /** Lines 22-24 and 28: the checks, then the first example of the last data
      class, which starts the running bounds. */
  method CheckClasses(data: Dict<int, Examples>, rules: Dict<int, RuleSet>) returns (r: Result<seq<real>>)
    requires data.Valid()
    ensures r.Err? <==> CheckFailure(data, rules, data.keys) != None || data.keys == []
    ensures r.Err? ==> r.error == if CheckFailure(data, rules, data.keys) != None
                                  then CheckFailure(data, rules, data.keys).value else NameError
    ensures r.Ok? ==> data.entries[data.keys[|data.keys| - 1]] != []
                      && r.value == data.entries[data.keys[|data.keys| - 1]][0]
  {
    var c := 0;
    while c < |data.keys|
      invariant 0 <= c <= |data.keys|
      invariant CheckFailure(data, rules, data.keys) == CheckFailure(data, rules, data.keys[c..])
    {
      CheckStep(data, rules, data.keys, c);
      var e := DataKeyError(data, rules, data.keys[c]);
      if e.Some? {
        return Err(e.value);
      }
      c := c + 1;
    }
    if data.keys == [] {
      return Err(NameError);
    }
    CheckPassed(data, rules, data.keys);
    var key := data.keys[|data.keys| - 1];
    return Ok(data.entries[key][0]);
  }

  // ----- The rewrite of the rules (lines 45-54) -----

  /** Every rule of a list has as many intervals as the first, so numpy can stack them. */
  predicate Uniform(rs: seq<Rule>) {
    forall i :: 0 <= i < |rs| ==> |rs[i]| == |rs[0]|
  }

  /** Why the rewrite of one rule class fails, if it does: F is the data's number
      of features and inData says whether the data has the class. */
  function RuleKeyError(entry: RuleSet, inData: bool, F: nat): Option<Error> {
    match entry
    case Matrix(_) => Some(ValueError)
    case Parsed(rs) =>
      if rs == [] then Some(IndexError)
      else if !Uniform(rs) then Some(ValueError)
      else if !inData then Some(KeyError)
      else if |rs[0]| != F then Some(IndexError)
      else None
  }

  /** The first failing rule class, in the dictionary's order. */
  function RewriteFailure(data: Dict<int, Examples>, rules: Dict<int, RuleSet>, F: nat, keys: seq<int>): Option<Error>
    requires forall i :: 0 <= i < |keys| ==> keys[i] in rules.entries
  {
    if keys == [] then None
    else
      var e := RuleKeyError(rules.entries[keys[0]], keys[0] in data.entries, F);
      if e.Some? then e else RewriteFailure(data, rules, F, keys[1..])
  }

  lemma RewriteStep(data: Dict<int, Examples>, rules: Dict<int, RuleSet>, F: nat, keys: seq<int>, c: nat)
    requires forall i :: 0 <= i < |keys| ==> keys[i] in rules.entries
    requires c < |keys| && RewriteFailure(data, rules, F, keys) == RewriteFailure(data, rules, F, keys[c..])
    ensures var e := RuleKeyError(rules.entries[keys[c]], keys[c] in data.entries, F);
            && (e.Some? ==> RewriteFailure(data, rules, F, keys) == e)
            && (e.None? ==> RewriteFailure(data, rules, F, keys) == RewriteFailure(data, rules, F, keys[c + 1..]))
  {
    assert keys[c..][1..] == keys[c + 1..];
  }

  /** The rows of a class after the reshape, before the sentinels are replaced. */
  function Reshaped(rs: seq<Rule>): (m: seq<seq<Bound>>)
    ensures |m| == |rs| && forall i :: 0 <= i < |rs| ==> |m[i]| == 2 * |rs[i]|
  {
    seq(|rs|, i requires 0 <= i < |rs| => Flatten(rs[i]))
  }

  /** The rows of a class once processed: each rule flattened, its sentinels
      replaced by the data bounds. */
  function Rewritten(rs: seq<Rule>, mm: seq<real>): (m: seq<seq<Bound>>)
    requires forall i :: 0 <= i < |rs| ==> 2 * |rs[i]| == |mm|
  {
    seq(|rs|, i requires 0 <= i < |rs| => Normalise(Flatten(rs[i]), mm))
  }

  /** The entries of the first c rule keys are rewritten, the others untouched. */
  ghost predicate RewrittenUpTo(before: Dict<int, RuleSet>, after: Dict<int, RuleSet>, mm: seq<real>, c: nat)
    requires before.Valid() && after.Valid() && before.keys == after.keys && c <= |before.keys|
  {
    && (forall i :: 0 <= i < c ==>
          && before.entries[before.keys[i]].Parsed?
          && (forall q :: 0 <= q < |before.entries[before.keys[i]].rules| ==>
                2 * |before.entries[before.keys[i]].rules[q]| == |mm|)
          && after.entries[before.keys[i]] == Matrix(Rewritten(before.entries[before.keys[i]].rules, mm)))
    && (forall i :: c <= i < |before.keys| ==> after.entries[before.keys[i]] == before.entries[before.keys[i]])
  }

  /** The products of the preprocessing besides the rewritten rules. */
  datatype Processed = Processed(min: seq<real>, max: seq<real>, minmax: seq<real>)

  /** Why `ProcRules(tabpar, reppar)` fails, if it does. */
  ghost function Failure(data: Dict<int, Examples>, rules: Dict<int, RuleSet>): Option<Error>
    requires data.Valid() && rules.Valid()
  {
    var check := CheckFailure(data, rules, data.keys);
    if check.Some? then check
    else if data.keys == [] then Some(NameError)
    else
      CheckPassed(data, rules, data.keys);
      var x := data.entries[data.keys[|data.keys| - 1]][0];
      if !Width(AllExamples(data), |x|) then Some(ValueError)
      else RewriteFailure(data, rules, |x|, rules.keys)
  }

  /** Rewriting the entry of key c (after any earlier write to it) extends the
      rewritten prefix by one key. */
  lemma RewriteEntryStep(before: Dict<int, RuleSet>, after: Dict<int, RuleSet>, mm: seq<real>, c: nat, staged: RuleSet)
    requires before.Valid() && after.Valid() && before.keys == after.keys && c < |before.keys|
    requires RewrittenUpTo(before, after, mm, c)
    requires before.entries[before.keys[c]].Parsed?
    requires forall q :: 0 <= q < |before.entries[before.keys[c]].rules| ==>
               2 * |before.entries[before.keys[c]].rules[q]| == |mm|
    ensures var next := after.Put(before.keys[c], staged)
                             .Put(before.keys[c], Matrix(Rewritten(before.entries[before.keys[c]].rules, mm)));
            && next.Valid() && next.keys == before.keys
            && RewrittenUpTo(before, next, mm, c + 1)
  {
    KeyNotInPrefix(before, c);
  }

  /** Lines 45-54: the loop over the rule classes, rewriting each entry of the
      shared dictionary in place. It reports the first error, as the exception
      the source raises. */
  method RewriteRules(rep: Report, data: Dict<int, Examples>, minmax: seq<real>, F: nat) returns (err: Option<Error>)
    requires rep.rules.Valid() && |minmax| == 2 * F
    modifies rep
    ensures rep.rules.Valid() && rep.rules.keys == old(rep.rules.keys)
    ensures err == RewriteFailure(data, old(rep.rules), F, old(rep.rules.keys))
    ensures err.None? ==> RewrittenUpTo(old(rep.rules), rep.rules, minmax, |rep.rules.keys|)
  {
    ghost var before := rep.rules;
    var keys := rep.rules.keys;
    var c := 0;
    while c < |keys|
      invariant 0 <= c <= |keys|
      invariant rep.rules.Valid() && rep.rules.keys == keys
      invariant RewriteFailure(data, before, F, keys) == RewriteFailure(data, before, F, keys[c..])
      invariant RewrittenUpTo(before, rep.rules, minmax, c)
    {
      RewriteStep(data, before, F, keys, c);
      ghost var pre := rep.rules;
      err := RewriteEntry(rep, keys[c], data, minmax, F);
      if err.Some? {
        return;
      }
      RewriteEntryStep(before, pre, minmax, c, Matrix(Reshaped(before.entries[keys[c]].rules)));
      c := c + 1;
    }
    return None;
  }

  /** One pass of the loop of lines 45-54: the reshape is stored before the
      data lookup and the masked assignment, as in the source. */
  method RewriteEntry(rep: Report, key: int, data: Dict<int, Examples>, minmax: seq<real>, F: nat) returns (err: Option<Error>)
    requires rep.rules.Valid() && key in rep.rules.entries && |minmax| == 2 * F
    modifies rep
    ensures rep.rules.Valid() && rep.rules.keys == old(rep.rules.keys)
    ensures err == RuleKeyError(old(rep.rules.entries[key]), key in data.entries, F)
    ensures err.None? ==> && old(rep.rules.entries[key]).Parsed?
                          && (forall q :: 0 <= q < |old(rep.rules.entries[key]).rules| ==>
                                2 * |old(rep.rules.entries[key]).rules[q]| == |minmax|)
                          && rep.rules == old(rep.rules).Put(key, Matrix(Reshaped(old(rep.rules.entries[key]).rules)))
                                                        .Put(key, Matrix(Rewritten(old(rep.rules.entries[key]).rules, minmax)))
  {
    var entry := rep.rules.entries[key];
    if entry.Matrix? {
      return Some(ValueError);
    }
    var rs := entry.rules;
    if rs == [] {
      return Some(IndexError);
    }
    if !Uniform(rs) {
      return Some(ValueError);
    }
    rep.rules := rep.rules.Put(key, Matrix(Reshaped(rs)));
    if key !in data.entries {
      return Some(KeyError);
    }
    if |rs[0]| != F {
      return Some(IndexError);
    }
    rep.rules := rep.rules.Put(key, Matrix(Rewritten(rs, minmax)));
    return None;
  }

  /** `ProcRules(tabpar, reppar)`: the report's rules are rewritten in place. */
  method Process(tab: TabPar.TabData, rep: Report) returns (r: Result<Processed>)
    requires tab.data.Valid() && rep.rules.Valid()
    modifies rep
    ensures r.Ok? <==> Failure(tab.data, old(rep.rules)) == None
    ensures r.Err? ==> Failure(tab.data, old(rep.rules)) == Some(r.error)
    ensures rep.rules.Valid() && rep.rules.keys == old(rep.rules.keys)
    ensures r.Ok? ==> && |r.value.min| == |r.value.max|
                      && Width(AllExamples(tab.data), |r.value.min|)
                      && Encloses(r.value.min, r.value.max, AllExamples(tab.data))
                      && Tight(r.value.min, r.value.max, AllExamples(tab.data))
                      && r.value.minmax == Interleave(r.value.min, r.value.max)
                      && RewrittenUpTo(old(rep.rules), rep.rules, r.value.minmax, |rep.rules.keys|)
  {
    var data := tab.data;
    var x := CheckClasses(data, rep.rules);
    if x.Err? {
      return Err(x.error);
    }
    CheckPassed(data, rep.rules, data.keys);
    ExampleAt(data, |data.keys| - 1, 0);
    var box := MinMax(data, x.value);
    if box.Err? {
      return Err(box.error);
    }
    var minmax := Interleave(box.value.lo, box.value.hi);
    var err := RewriteRules(rep, data, minmax, |x.value|);
    if err.Some? {
      return Err(err.value);
    }
    return Ok(Processed(box.value.lo, box.value.hi, minmax));
  }
}
