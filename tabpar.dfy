/** The reader of the tab data format: a header line, then the examples of each
    class in turn, every class block followed by one separator line.

    File access and number parsing are outside the model: the file is the header's
    integers and the following lines, each already split into numbers. Reading
    past the end of the file gives an empty line, as `readline` does. */
module TabPar {
  import opened Results
  import opened Dicts

  /** What `TabDataParser.__init__` stores: the counts, the hole sentinel and the
      examples of each class. */
  datatype TabData = TabData(nfeatures: int, nclasses: int, hole: int, data: Dict<int, seq<seq<real>>>)

  /** `header[2:-1]`: the cumulative example counts. */
  function CumCounts(header: seq<int>): seq<int> {
    if |header| >= 3 then header[2..|header| - 1] else []
  }

  /** The number of classes the loop visits: `range(nclasses)`. */
  function Classes(header: seq<int>): nat
    requires |header| >= 2
  {
    if header[1] > 0 then header[1] else 0
  }

  /** Line p of the data part; past the end, the empty line. */
  function Line(lines: seq<seq<real>>, p: int): seq<real> {
    if 0 <= p < |lines| then lines[p] else []
  }

  /** Line pos + e: row e of a block that starts at line pos. */
  function Row(lines: seq<seq<real>>, pos: int, e: int): seq<real> {
    Line(lines, pos + e)
  }

  /** `len(range(cumcount[i], cumcount[i + 1]))`. */
  function BlockSize(cum: seq<int>, i: int): nat {
    if 0 <= i && i + 1 < |cum| && cum[i + 1] > cum[i] then cum[i + 1] - cum[i] else 0
  }

  /** The line at which the block of class i + 1 starts: every earlier block is
      followed by its separator line. */
  function BlockStart(cum: seq<int>, i: nat): nat {
    if i == 0 then 0 else BlockStart(cum, i - 1) + BlockSize(cum, i - 1) + 1
  }

  /** Example e of class i + 1. */
  function Example(cum: seq<int>, lines: seq<seq<real>>, i: nat, e: nat): seq<real> {
    Line(lines, BlockStart(cum, i) + e)
  }

  /** A file the reader accepts: the header has the two counts, enough cumulative
      counts for every class, and every example read has nfeatures values. */
  ghost predicate Decodable(header: seq<int>, lines: seq<seq<real>>) {
    && |header| >= 2
    && (Classes(header) == 0 || Classes(header) < |CumCounts(header)|)
    && (forall i: nat, e: nat :: i < Classes(header) && e < BlockSize(CumCounts(header), i) ==>
          |Example(CumCounts(header), lines, i, e)| == header[0])
  }

  /** The examples of class i + 1, in file order. */
  function Block(cum: seq<int>, lines: seq<seq<real>>, i: nat): seq<seq<real>> {
    seq(BlockSize(cum, i), e requires 0 <= e => Example(cum, lines, i, e))
  }

  /** The inner loop of `TabDataParser.__init__`: reads the rows of one class. */
  method ReadBlock(lines: seq<seq<real>>, pos: nat, l: int, r: int, nfeatures: int) returns (rows: Result<seq<seq<real>>>)
    ensures var count := if r > l then r - l else 0;
            && (rows.Ok? <==> forall e :: 0 <= e < count ==> |Row(lines, pos, e)| == nfeatures)
            && (rows.Ok? ==> rows.value == seq(count, e requires 0 <= e => Row(lines, pos, e)))
  {
    var count := if r > l then r - l else 0;
    var data: seq<seq<real>> := [];
    var j := l;
    while j < r
      invariant l <= j && (j - l <= count)
      invariant data == seq(j - l, e requires 0 <= e => Row(lines, pos, e))
      invariant forall e :: 0 <= e < j - l ==> |Row(lines, pos, e)| == nfeatures
    {
      var x := Row(lines, pos, j - l);
      if |x| != nfeatures {
        return Err(AssertionError);
      }
      data := data + [x];
      j := j + 1;
    }
    return Ok(data);
  }

  /** Every example of the first i classes has nfeatures values. */
  ghost predicate RowsFit(cum: seq<int>, lines: seq<seq<real>>, nfeatures: int, i: nat) {
    forall q: nat, e: nat :: q < i && e < BlockSize(cum, q) ==> |Example(cum, lines, q, e)| == nfeatures
  }

  /** data holds the blocks of classes 1..i under their labels, in label order. */
  ghost predicate Collected(cum: seq<int>, lines: seq<seq<real>>, data: Dict<int, seq<seq<real>>>, i: nat) {
    && data.Valid() && data.keys == seq(i, q => q + 1)
    && forall c :: 1 <= c <= i ==> c in data.entries && data.entries[c] == Block(cum, lines, c - 1)
  }

  lemma CollectStep(cum: seq<int>, lines: seq<seq<real>>, data: Dict<int, seq<seq<real>>>, i: nat)
    requires Collected(cum, lines, data, i)
    ensures Collected(cum, lines, data.Put(i + 1, Block(cum, lines, i)), i + 1)
  {
    assert i + 1 !in data.entries;
    assert seq(i, q => q + 1) + [i + 1] == seq(i + 1, q => q + 1);
  }

  /** One turn of the outer loop of `TabDataParser.__init__`: the bounds of class
      i + 1 and the rows of its block. */
  method ReadClass(cum: seq<int>, lines: seq<seq<real>>, pos: nat, i: nat, nfeatures: int)
    returns (rows: Result<seq<seq<real>>>)
    requires pos == BlockStart(cum, i)
    ensures rows.Ok? <==> i + 1 < |cum| && forall e: nat :: e < BlockSize(cum, i) ==> |Example(cum, lines, i, e)| == nfeatures
    ensures rows.Ok? ==> rows.value == Block(cum, lines, i)
  {
    if i + 1 >= |cum| {
      return Err(IndexError);
    }
    var l, r := cum[i], cum[i + 1];
    rows := ReadBlock(lines, pos, l, r, nfeatures);
    assert (if r > l then r - l else 0) == BlockSize(cum, i);
    if rows.Err? {
      var e :| 0 <= e < BlockSize(cum, i) && |Row(lines, pos, e)| != nfeatures;
      assert Example(cum, lines, i, e) == Row(lines, pos, e);
      return;
    }
    forall e: nat | e < BlockSize(cum, i)
      ensures |Example(cum, lines, i, e)| == nfeatures
    {
      assert Example(cum, lines, i, e) == Row(lines, pos, e);
    }
    assert rows.value == Block(cum, lines, i);
  }

  /** `TabDataParser.__init__`. */
  method ParseTab(header: seq<int>, lines: seq<seq<real>>) returns (r: Result<TabData>)
    ensures r.Ok? <==> Decodable(header, lines)
    ensures r.Ok? ==> |header| >= 2 && r.value.nfeatures == header[0] && r.value.nclasses == header[1]
                      && r.value.hole == header[|header| - 1]
    ensures r.Ok? ==> && r.value.data.Valid()
                      && r.value.data.keys == seq(Classes(header), i => i + 1)
                      && forall c :: 1 <= c <= Classes(header) ==>
                           c in r.value.data.entries
                           && r.value.data.entries[c] == Block(CumCounts(header), lines, c - 1)
  {
    if |header| < 2 {
      return Err(IndexError);
    }
    var nfeatures, nclasses := header[0], header[1];
    var cumcount := CumCounts(header);
    var hole := header[|header| - 1];
    var data: Dict<int, seq<seq<real>>> := Empty();
    var pos: nat := 0;
    var i := 0;
    while i < nclasses
      invariant 0 <= i <= Classes(header)
      invariant pos == BlockStart(cumcount, i)
      invariant i == 0 || i < |cumcount|
      invariant RowsFit(cumcount, lines, nfeatures, i)
      invariant Collected(cumcount, lines, data, i)
    {
      var rows := ReadClass(cumcount, lines, pos, i, nfeatures);
      if rows.Err? {
        return Err(rows.error);
      }
      CollectStep(cumcount, lines, data, i);
      data := data.Put(i + 1, rows.value);
      pos := pos + BlockSize(cumcount, i) + 1;
      i := i + 1;
    }
    return Ok(TabData(nfeatures, nclasses, hole, data));
  }

  /** The header `3 2 0 2 3 -1` followed by two rows, a blank line, one row and a
      blank line: two examples of class 1 and one of class 2. */
  method ParseTabExample() returns (r: Result<TabData>)
    ensures r.Ok? && r.value.data.keys == [1, 2]
    ensures 1 in r.value.data.entries && 2 in r.value.data.entries
    ensures |r.value.data.entries[1]| == 2 && |r.value.data.entries[2]| == 1
    ensures r.value.data.entries[2] == [[0.0, 0.0, 0.0]]
  {
    var lines := [[1.0, 2.0, 3.0], [4.0, 5.0, 6.0], [], [0.0, 0.0, 0.0], []];
    var header := [3, 2, 0, 2, 3, -1];
    assert CumCounts(header) == [0, 2, 3];
    assert BlockStart([0, 2, 3], 1) == 3;
    assert Decodable(header, lines) by {
      forall i: nat, e: nat | i < 2 && e < BlockSize([0, 2, 3], i)
        ensures |Example([0, 2, 3], lines, i, e)| == 3
      {
        assert i == 0 ==> BlockStart([0, 2, 3], i) + e <= 1;
        assert i == 1 ==> BlockStart([0, 2, 3], i) + e == 3;
      }
    }
    r := ParseTab(header, lines);
    assert seq(2, i => i + 1) == [1, 2];
    assert Block([0, 2, 3], lines, 1) == [[0.0, 0.0, 0.0]];
    assert 1 in r.value.data.entries && 2 in r.value.data.entries;
    assert |Block([0, 2, 3], lines, 0)| == 2;
  }
}
