/** `Sheet`: a labelled row-major matrix of values, and the list helpers it
    is built from (`flatten`, `repeat`, list repetition `l * n` and
    Python 2 `zip`, which stops at the shortest argument). */
module Sheets {
  import opened Results

  /** `flatten(l)`: the rows one after another. */
  function Flatten<T>(l: seq<seq<T>>): seq<T>
    decreases |l|
  {
    if l == [] then [] else Flatten(l[..|l| - 1]) + l[|l| - 1]
  }

  /** `repeat(l, n)`: every item `n` times in a row. */
  function Repeat<T>(l: seq<T>, n: nat): seq<T>
    decreases |l|
  {
    if l == [] then [] else seq(n, _ => l[0]) + Repeat(l[1..], n)
  }

  /** `l * n`: the whole list `n` times over. */
  function Times<T>(l: seq<T>, n: nat): seq<T> {
    if n == 0 then [] else l + Times(l, n - 1)
  }

  function Min(a: int, b: int): int {
    if a <= b then a else b
  }

  /** Python 2 `zip(a, b, c)`. */
  function Zip3<A, B, C>(a: seq<A>, b: seq<B>, c: seq<C>): seq<(A, B, C)> {
    seq(Min(|a|, Min(|b|, |c|)), i requires 0 <= i < Min(|a|, Min(|b|, |c|)) => (a[i], b[i], c[i]))
  }

  /** The fields a `Sheet` object sets in its constructor. */
  datatype Sheet<R, C, V> = Sheet(
    rowIndex: seq<R>,
    colIndex: seq<C>,
    valuesByRow: seq<seq<V>>,
    values: seq<V>)
  {
    /** What the constructor establishes. */
    ghost predicate Valid() {
      |rowIndex| == |valuesByRow| && |valuesByRow| > 0
      && |colIndex| == |valuesByRow[0]| && values == Flatten(valuesByRow)
    }
  }

  /** `Sheet(rows, cols, values)`. The row-count check holds, the value
      matrix must have a first row, and only that row's length is compared
      with the columns. The check on the total number of cells only builds a
      message and never raises. */
  function NewSheet<R, C, V>(rows: seq<R>, cols: seq<C>, values: seq<seq<V>>): Result<Sheet<R, C, V>> {
    var flat := Flatten(values);
    if |rows| != |values| then Err(AssertionError("len(rows) == len(values)"))
    else if values == [] then Err(IndexError("list index out of range"))
    else if |cols| != |values[0]| then Err(AssertionError("len(cols) == len(values[0])"))
    else Ok(Sheet(rows, cols, values, flat))
  }

  /** `long_format`: (row, column, value) triples, the rows repeated once
      per column, the columns once per row and the cells in row-major
      order, truncated to the shortest of the three. */
  function LongFormat<R, C, V>(s: Sheet<R, C, V>): seq<(R, C, V)> {
    Zip3(Repeat(s.rowIndex, |s.colIndex|), Times(s.colIndex, |s.rowIndex|), s.values)
  }

  /** One record of `as_dictlist`. */
  datatype Record<R, C, V> = Record(row: R, col: C, value: V)

  /** The records of row `i`, one per column. */
  function RowRecords<R, C, V>(s: Sheet<R, C, V>, i: nat): seq<Record<R, C, V>>
    requires i < |s.rowIndex| && i < |s.valuesByRow| && |s.colIndex| <= |s.valuesByRow[i]|
  {
    seq(|s.colIndex|, j requires 0 <= j < |s.colIndex| => Record(s.rowIndex[i], s.colIndex[j], s.valuesByRow[i][j]))
  }

  /** Every row has a value for every column. */
  predicate RowsCovered<R, C, V>(s: Sheet<R, C, V>, n: nat)
    requires n <= |s.valuesByRow|
  {
    forall i :: 0 <= i < n ==> |s.colIndex| <= |s.valuesByRow[i]|
  }

  /** The records of the first `n` rows. */
  function RecordsUpTo<R, C, V>(s: Sheet<R, C, V>, n: nat): seq<Record<R, C, V>>
    requires s.Valid() && n <= |s.rowIndex| && RowsCovered(s, n)
  {
    Flatten(seq(n, i requires 0 <= i < n => RowRecords(s, i)))
  }

  /** `as_dictlist`: one record per row and column in row-major order; a
      row with fewer cells than there are columns raises IndexError. */
  function DictList<R, C, V>(s: Sheet<R, C, V>): Result<seq<Record<R, C, V>>>
    requires s.Valid()
  {
    if RowsCovered(s, |s.rowIndex|) then Ok(RecordsUpTo(s, |s.rowIndex|))
    else Err(IndexError("list index out of range"))
  }

  /** The nested loops of `as_dictlist`. */
  method AsDictList<R, C, V>(s: Sheet<R, C, V>) returns (r: Result<seq<Record<R, C, V>>>)
    requires s.Valid()
    ensures r == DictList(s)
  {
    var data: seq<Record<R, C, V>> := [];
    var i := 0;
    while i < |s.rowIndex|
      invariant 0 <= i <= |s.rowIndex|
      invariant RowsCovered(s, i)
      invariant data == RecordsUpTo(s, i)
    {
      var j := 0;
      while j < |s.colIndex|
        invariant 0 <= j <= |s.colIndex|
        invariant j <= |s.valuesByRow[i]|
        invariant data == RecordsUpTo(s, i) + seq(j, j' requires 0 <= j' < j =>
          Record(s.rowIndex[i], s.colIndex[j'], s.valuesByRow[i][j']))
      {
        if j >= |s.valuesByRow[i]| {
          return Err(IndexError("list index out of range"));
        }
        data := data + [Record(s.rowIndex[i], s.colIndex[j], s.valuesByRow[i][j])];
        j := j + 1;
      }
      RecordsUpToNext(s, i);
      i := i + 1;
    }
    return Ok(data);
  }

  // ---------------------------------------------------------------- lemmas

  lemma RecordsUpToNext<R, C, V>(s: Sheet<R, C, V>, i: nat)
    requires s.Valid() && i < |s.rowIndex| && RowsCovered(s, i + 1)
    ensures RecordsUpTo(s, i + 1) == RecordsUpTo(s, i) + RowRecords(s, i)
  {
    var rows := seq(i + 1, i' requires 0 <= i' < i + 1 => RowRecords(s, i'));
    assert rows[..i] == seq(i, i' requires 0 <= i' < i => RowRecords(s, i'));
  }

  /** Quotient and remainder of `k` by `n` are determined by
      `k == n * q + r` with `0 <= r < n`. */
  lemma DivModUnique(k: int, n: int, q: int, r: int)
    requires n > 0 && k == n * q + r && 0 <= r < n
    ensures k / n == q && k % n == r
  {
    var q' := k / n;
    var r' := k % n;
    MulLeft(n, q, q');
    MulZero(n, q - q', r' - r);
  }

  lemma MulLeft(n: int, a: int, b: int)
    ensures n * a - n * b == n * (a - b)
  {
  }

  /** A multiple of `n` strictly between `-n` and `n` is zero. */
  lemma MulZero(n: int, d: int, m: int)
    requires n > 0 && m == n * d && -n < m < n
    ensures d == 0
  {
    if d > 0 {
      MulMono(n, d);
    } else if d < 0 {
      MulMono(n, -d);
    }
  }

  lemma MulMono(n: int, d: int)
    requires n > 0 && d >= 1
    ensures n * d >= n
  {
  }

  lemma DivModStep(k: int, n: int)
    requires n > 0 && k >= n
    ensures (k - n) / n == k / n - 1 && (k - n) % n == k % n
  {
    DivModUnique(k - n, n, k / n - 1, k % n);
  }

  /** The quotient of an index below `m * n` by `n` is below `m`. */
  lemma DivBound(k: int, n: int, m: int)
    requires n > 0 && 0 <= k < m * n
    ensures 0 <= k / n < m
  {
    var q := k / n;
    MulLeft(n, m, q);
    if q >= m {
      MulMono(n, q - m + 1);
    }
  }

  lemma MulSucc(a: nat, n: nat)
    ensures (a + 1) * n == n + a * n
  {
  }

  lemma {:induction false} RepeatLength<T>(l: seq<T>, n: nat)
    ensures |Repeat(l, n)| == |l| * n
    decreases |l|
  {
    if l != [] {
      RepeatLength(l[1..], n);
      MulSucc(|l| - 1, n);
    }
  }

  /** Copy `b` of item `a` sits at `a * n + b` of `repeat(l, n)`. */
  lemma {:induction false} RepeatCell<T>(l: seq<T>, n: nat, a: nat, b: nat)
    requires a < |l| && b < n
    ensures a * n + b < |Repeat(l, n)| && Repeat(l, n)[a * n + b] == l[a]
    decreases |l|
  {
    var head := seq(n, _ => l[0]);
    var tail := Repeat(l[1..], n);
    assert Repeat(l, n) == head + tail;
    RepeatLength(l[1..], n);
    if a > 0 {
      RepeatCell(l[1..], n, a - 1, b);
      MulSucc(a - 1, n);
      assert l[1..][a - 1] == l[a];
    }
  }

  lemma RepeatIndex<T>(l: seq<T>, n: nat, i: nat)
    requires i < |l| * n
    ensures i < |Repeat(l, n)| && Repeat(l, n)[i] == l[i / n]
  {
    assert n > 0;
    DivBound(i, n, |l|);
    DivModSplit(i, n);
    RepeatCell(l, n, i / n, i % n);
  }

  /** Item `i` of `repeat(l, n)` is `l[i div n]`. */
  lemma RepeatAt<T>(l: seq<T>, n: nat)
    ensures |Repeat(l, n)| == |l| * n
    ensures forall i :: 0 <= i < |l| * n ==> Repeat(l, n)[i] == l[i / n]
  {
    RepeatLength(l, n);
    forall i | 0 <= i < |l| * n ensures Repeat(l, n)[i] == l[i / n] {
      RepeatIndex(l, n, i);
    }
  }

  lemma {:induction false} TimesLength<T>(l: seq<T>, n: nat)
    ensures |Times(l, n)| == |l| * n
    decreases n
  {
    if n > 0 {
      TimesLength(l, n - 1);
      MulSucc(n - 1, |l|);
    }
  }

  /** Item `b` of copy `a` sits at `a * |l| + b` of `l * n`. */
  lemma {:induction false} TimesCell<T>(l: seq<T>, n: nat, a: nat, b: nat)
    requires a < n && b < |l|
    ensures a * |l| + b < |Times(l, n)| && Times(l, n)[a * |l| + b] == l[b]
    decreases n
  {
    TimesLength(l, n - 1);
    assert Times(l, n) == l + Times(l, n - 1);
    if a > 0 {
      TimesCell(l, n - 1, a - 1, b);
      MulSucc(a - 1, |l|);
    }
  }

  lemma TimesIndex<T>(l: seq<T>, n: nat, i: nat)
    requires i < |l| * n
    ensures i < |Times(l, n)| && Times(l, n)[i] == l[i % |l|]
  {
    assert |l| > 0;
    assert i < n * |l|;
    DivBound(i, |l|, n);
    DivModSplit(i, |l|);
    TimesCell(l, n, i / |l|, i % |l|);
  }

  /** Item `i` of `l * n` is `l[i mod |l|]`. */
  lemma TimesAt<T>(l: seq<T>, n: nat)
    ensures |Times(l, n)| == |l| * n
    ensures forall i :: 0 <= i < |l| * n ==> Times(l, n)[i] == l[i % |l|]
  {
    TimesLength(l, n);
    forall i | 0 <= i < |l| * n ensures Times(l, n)[i] == l[i % |l|] {
      TimesIndex(l, n, i);
    }
  }

  /** All rows have `c` items. */
  predicate Rectangular<T>(l: seq<seq<T>>, c: nat) {
    forall i :: 0 <= i < |l| ==> |l[i]| == c
  }

  lemma RectangularInit<T>(l: seq<seq<T>>, c: nat)
    requires Rectangular(l, c) && l != []
    ensures Rectangular(l[..|l| - 1], c)
  {
    var init := l[..|l| - 1];
    forall i | 0 <= i < |init| ensures |init[i]| == c { assert init[i] == l[i]; }
  }

  lemma {:induction false} FlattenRectLength<T>(l: seq<seq<T>>, c: nat)
    requires Rectangular(l, c)
    ensures |Flatten(l)| == |l| * c
    decreases |l|
  {
    if l != [] {
      RectangularInit(l, c);
      FlattenRectLength(l[..|l| - 1], c);
      MulSucc(|l| - 1, c);
    }
  }

  /** Cell (a, b) of rows of `c` items sits at `a * c + b` of the
      flattened list. */
  lemma {:induction false} FlattenCell<T>(l: seq<seq<T>>, c: nat, a: nat, b: nat)
    requires Rectangular(l, c) && a < |l| && b < c
    ensures a * c + b < |Flatten(l)| && Flatten(l)[a * c + b] == l[a][b]
    decreases |l|
  {
    var init := l[..|l| - 1];
    RectangularInit(l, c);
    FlattenRectLength(init, c);
    assert Flatten(l) == Flatten(init) + l[|l| - 1];
    if a < |init| {
      CellBelow(a, b, c, |init|);
      FlattenCell(init, c, a, b);
      assert init[a] == l[a];
    }
  }

  lemma CellBelow(a: nat, b: nat, c: nat, n: nat)
    requires a < n && b < c
    ensures a * c + b < n * c
  {
    var d := n - a;
    assert n * c == a * c + d * c;
    MulMono(c, d);
    assert d * c == c * d;
  }

  lemma FlattenIndex<T>(l: seq<seq<T>>, c: nat, k: nat)
    requires Rectangular(l, c) && k < |l| * c
    ensures k < |Flatten(l)| && k / c < |l| && Flatten(l)[k] == l[k / c][k % c]
  {
    FlattenRectLength(l, c);
    assert c > 0;
    DivBound(k, c, |l|);
    DivModSplit(k, c);
    FlattenCell(l, c, k / c, k % c);
  }

  lemma DivModSplit(k: int, c: int)
    requires c > 0
    ensures k == (k / c) * c + k % c && 0 <= k % c < c
  {
  }

  /** Flattening rows of `c` items: item `k` is row `k div c`, column
      `k mod c`. */
  lemma FlattenAt<T>(l: seq<seq<T>>, c: nat)
    requires Rectangular(l, c)
    ensures |Flatten(l)| == |l| * c
    ensures forall k :: 0 <= k < |l| * c ==> k / c < |l| && Flatten(l)[k] == l[k / c][k % c]
  {
    FlattenRectLength(l, c);
    forall k | 0 <= k < |l| * c ensures k / c < |l| && Flatten(l)[k] == l[k / c][k % c] {
      FlattenIndex(l, c, k);
    }
  }

  /** The total number of cells. */
  function CellCount<T>(l: seq<seq<T>>): nat
    decreases |l|
  {
    if l == [] then 0 else CellCount(l[..|l| - 1]) + |l[|l| - 1]|
  }

  lemma {:induction false} FlattenLength<T>(l: seq<seq<T>>)
    ensures |Flatten(l)| == CellCount(l)
    decreases |l|
  {
    if l != [] {
      FlattenLength(l[..|l| - 1]);
    }
  }

  /** Building a sheet succeeds exactly when there are as many rows as value
      rows, at least one value row, and as many columns as cells in the
      first value row; no other row's length is checked. */
  lemma NewSheetSpec<R, C, V>(rows: seq<R>, cols: seq<C>, values: seq<seq<V>>)
    ensures NewSheet(rows, cols, values).Ok? <==>
      |rows| == |values| && |values| > 0 && |cols| == |values[0]|
    ensures NewSheet(rows, cols, values).Ok? ==>
      NewSheet(rows, cols, values).value.Valid()
      && NewSheet(rows, cols, values).value == Sheet(rows, cols, values, Flatten(values))
    ensures values == [] ==> NewSheet(rows, cols, values).Err?
  {
  }

  /** Record `k` of `long_format` is (row `k div C`, column `k mod C`, cell
      `k` of the flattened values), and there are min(R*C, cells) records. */
  lemma LongFormatAt<R, C, V>(s: Sheet<R, C, V>)
    requires |s.colIndex| > 0
    ensures |LongFormat(s)| == Min(|s.rowIndex| * |s.colIndex|, |s.values|)
    ensures forall k :: 0 <= k < |LongFormat(s)| ==>
      k / |s.colIndex| < |s.rowIndex| && LongFormat(s)[k] == (s.rowIndex[k / |s.colIndex|], s.colIndex[k % |s.colIndex|], s.values[k])
  {
    LongFormatAtLength(s);
    forall k | 0 <= k < |LongFormat(s)|
      ensures k / |s.colIndex| < |s.rowIndex|
      ensures LongFormat(s)[k] == (s.rowIndex[k / |s.colIndex|], s.colIndex[k % |s.colIndex|], s.values[k])
    {
      LongFormatIndex(s, k);
    }
  }

  lemma LongFormatAtLength<R, C, V>(s: Sheet<R, C, V>)
    ensures |LongFormat(s)| == Min(|s.rowIndex| * |s.colIndex|, |s.values|)
  {
    RepeatLength(s.rowIndex, |s.colIndex|);
    TimesLength(s.colIndex, |s.rowIndex|);
    assert |s.colIndex| * |s.rowIndex| == |s.rowIndex| * |s.colIndex|;
  }

  lemma LongFormatIndex<R, C, V>(s: Sheet<R, C, V>, k: nat)
    requires |s.colIndex| > 0 && k < |LongFormat(s)|
    ensures k / |s.colIndex| < |s.rowIndex| && k < |s.values|
    ensures LongFormat(s)[k] == (s.rowIndex[k / |s.colIndex|], s.colIndex[k % |s.colIndex|], s.values[k])
  {
    LongFormatAtLength(s);
    DivBound(k, |s.colIndex|, |s.rowIndex|);
    RepeatIndex(s.rowIndex, |s.colIndex|, k);
    TimesIndex(s.colIndex, |s.rowIndex|, k);
  }

  /** When every value row has one cell per column, `long_format` lists
      exactly the records of `as_dictlist`, in the same order. */
  lemma LongFormatIsDictList<R, C, V>(s: Sheet<R, C, V>)
    requires s.Valid() && Rectangular(s.valuesByRow, |s.colIndex|)
    ensures DictList(s).Ok?
    ensures |LongFormat(s)| == |DictList(s).value| == |s.rowIndex| * |s.colIndex|
    ensures forall k :: 0 <= k < |LongFormat(s)| ==>
      var rec := DictList(s).value[k];
      LongFormat(s)[k] == (rec.row, rec.col, rec.value)
  {
    var nr := |s.rowIndex|;
    var nc := |s.colIndex|;
    DictListLength(s);
    LongFormatLength(s);
    if nc > 0 {
      forall k | 0 <= k < nr * nc
        ensures LongFormat(s)[k] == (DictList(s).value[k].row, DictList(s).value[k].col, DictList(s).value[k].value)
      {
        DivBound(k, nc, nr);
        DivModSplit(k, nc);
        CellAgrees(s, k / nc, k % nc);
      }
    }
  }

  lemma DictListLength<R, C, V>(s: Sheet<R, C, V>)
    requires s.Valid() && Rectangular(s.valuesByRow, |s.colIndex|)
    ensures DictList(s).Ok? && |DictList(s).value| == |s.rowIndex| * |s.colIndex|
  {
    var nr := |s.rowIndex|;
    var groups := seq(nr, i requires 0 <= i < nr => RowRecords(s, i));
    assert Rectangular(groups, |s.colIndex|);
    FlattenRectLength(groups, |s.colIndex|);
  }

  lemma LongFormatLength<R, C, V>(s: Sheet<R, C, V>)
    requires s.Valid() && Rectangular(s.valuesByRow, |s.colIndex|)
    ensures |LongFormat(s)| == |s.rowIndex| * |s.colIndex| <= |s.values|
  {
    FlattenRectLength(s.valuesByRow, |s.colIndex|);
    RepeatLength(s.rowIndex, |s.colIndex|);
    TimesLength(s.colIndex, |s.rowIndex|);
    assert |s.colIndex| * |s.rowIndex| == |s.rowIndex| * |s.colIndex|;
  }

  /** Cell (a, b) is the same triple in both listings. */
  lemma CellAgrees<R, C, V>(s: Sheet<R, C, V>, a: nat, b: nat)
    requires s.Valid() && Rectangular(s.valuesByRow, |s.colIndex|)
    requires a < |s.rowIndex| && b < |s.colIndex|
    ensures DictList(s).Ok?
    ensures a * |s.colIndex| + b < |LongFormat(s)| && a * |s.colIndex| + b < |DictList(s).value|
    ensures var rec := DictList(s).value[a * |s.colIndex| + b];
      LongFormat(s)[a * |s.colIndex| + b] == (rec.row, rec.col, rec.value)
  {
    var nc := |s.colIndex|;
    var k := a * nc + b;
    DictListLength(s);
    LongFormatLength(s);
    CellBelow(a, b, nc, |s.rowIndex|);
    DictListCell(s, a, b);
    LongFormatCell(s, a, b);
  }

  lemma DictListCell<R, C, V>(s: Sheet<R, C, V>, a: nat, b: nat)
    requires s.Valid() && Rectangular(s.valuesByRow, |s.colIndex|)
    requires a < |s.rowIndex| && b < |s.colIndex|
    ensures DictList(s).Ok? && a * |s.colIndex| + b < |DictList(s).value|
    ensures DictList(s).value[a * |s.colIndex| + b] == Record(s.rowIndex[a], s.colIndex[b], s.valuesByRow[a][b])
  {
    var nr := |s.rowIndex|;
    var groups := seq(nr, i requires 0 <= i < nr => RowRecords(s, i));
    assert Rectangular(groups, |s.colIndex|);
    FlattenCell(groups, |s.colIndex|, a, b);
    assert groups[a][b] == Record(s.rowIndex[a], s.colIndex[b], s.valuesByRow[a][b]);
  }

  lemma LongFormatCell<R, C, V>(s: Sheet<R, C, V>, a: nat, b: nat)
    requires s.Valid() && Rectangular(s.valuesByRow, |s.colIndex|)
    requires a < |s.rowIndex| && b < |s.colIndex|
    ensures a * |s.colIndex| + b < |LongFormat(s)|
    ensures LongFormat(s)[a * |s.colIndex| + b] == (s.rowIndex[a], s.colIndex[b], s.valuesByRow[a][b])
  {
    var nc := |s.colIndex|;
    var k := a * nc + b;
    LongFormatLength(s);
    CellBelow(a, b, nc, |s.rowIndex|);
    RepeatIndex(s.rowIndex, nc, k);
    TimesIndex(s.colIndex, |s.rowIndex|, k);
    assert nc * a + b == k;
    DivModUnique(k, nc, a, b);
    FlattenCell(s.valuesByRow, nc, a, b);
  }

  /** Rows of unequal length pass the constructor: with rows `a`, `b`,
      columns `x`, `y` and values `[[1, 2], [3]]` the sheet is built,
      `long_format` pairs the three cells with (a, x), (a, y), (b, x), and
      `as_dictlist` raises IndexError. */
  lemma RaggedSheetAccepted()
    ensures NewSheet(["a", "b"], ["x", "y"], [[1, 2], [3]]).Ok?
    ensures var s := NewSheet(["a", "b"], ["x", "y"], [[1, 2], [3]]).value;
      LongFormat(s) == [("a", "x", 1), ("a", "y", 2), ("b", "x", 3)]
      && DictList(s).Err?
  {
    var values: seq<seq<int>> := [[1, 2], [3]];
    assert values[..1] == [[1, 2]];
    var none: seq<seq<int>> := [];
    assert Flatten(values[..1]) == [1, 2] by {
      assert values[..1][..0] == none;
    }
    assert Flatten(values) == [1, 2, 3];
    var s := NewSheet(["a", "b"], ["x", "y"], values).value;
    LongFormatAt(s);
    assert !RowsCovered(s, 2) by { assert |s.valuesByRow[1]| < 2; }
  }

  lemma RepeatExample()
    ensures Repeat([1, 2, 3], 2) == [1, 1, 2, 2, 3, 3]
  {
    RepeatAt([1, 2, 3], 2);
  }
}
