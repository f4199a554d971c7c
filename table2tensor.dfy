/**
 * deepimagej.Table2Tensor: the shape and axis bookkeeping used to turn an
 * ImageJ results table into a tensor and back. A table form uses the
 * letters R (rows), C (columns) and B (batch); X and Y are padding axes.
 * Shapes of tables are non-negative sizes; Java's long-to-int casts are the
 * identity on them.
 */
module Table2Tensor {
  import opened Wrappers
  import JavaString
  import Index
  import IntArith

  /** The table axes in ImageJ's order. */
  const TableLetters: string := "RCBXY"

  /** findNon1occurences: the positions whose size is not 1, increasing. */
  method FindNon1Occurrences(shape: seq<int>) returns (occur: seq<nat>)
    ensures forall k :: 0 <= k < |occur| ==> occur[k] < |shape| && shape[occur[k]] != 1
    ensures forall k, l :: 0 <= k < l < |occur| ==> occur[k] < occur[l]
    ensures forall i :: 0 <= i < |shape| && shape[i] != 1 ==> i in occur
  {
    occur := [];
    var i := 0;
    while i < |shape|
      invariant 0 <= i <= |shape|
      invariant forall k :: 0 <= k < |occur| ==> occur[k] < i && shape[occur[k]] != 1
      invariant forall k, l :: 0 <= k < l < |occur| ==> occur[k] < occur[l]
      invariant forall j :: 0 <= j < i && shape[j] != 1 ==> j in occur
    {
      if shape[i] != 1 {
        occur := occur + [i];
      }
      i := i + 1;
    }
  }

  /** The letters of `letters` that `form` lacks, in the order of `letters`. */
  function Missing(form: string, letters: string): (r: string)
    ensures forall c :: c in r <==> c in letters && c !in form
    ensures |r| <= |letters|
  {
    if letters == [] then []
    else if letters[0] in form then Missing(form, letters[1..])
    else [letters[0]] + Missing(form, letters[1..])
  }

  /** Appending a letter to the list appends it to what is missing, when the form lacks it. */
  lemma {:induction false} MissingAppend(form: string, letters: string, c: char)
    ensures Missing(form, letters + [c]) == Missing(form, letters) + (if c in form then [] else [c])
    decreases |letters|
  {
    if letters != [] {
      assert (letters + [c])[1..] == letters[1..] + [c];
      MissingAppend(form, letters[1..], c);
    }
  }

  /** One pass of the longForm loop: the next letter is added exactly when
      the text so far lacks it. */
  lemma LongFormStep(form: string, i: nat)
    requires i < |TableLetters|
    ensures var r := form + Missing(form, TableLetters[..i]);
      var ff := TableLetters[i];
      form + Missing(form, TableLetters[..i + 1]) == if ff in r then r else r + [ff]
  {
    var ff := TableLetters[i];
    assert ff !in TableLetters[..i];
    assert TableLetters[..i + 1] == TableLetters[..i] + [ff];
    MissingAppend(form, TableLetters[..i], ff);
  }

  /**
   * longForm: the form followed by the letters of "RCBXY" it lacks, in
   * that order. The letters are distinct, so a letter appended earlier
   * never hides a later one.
   */
  method LongForm(form: string) returns (r: string)
    ensures r == form + Missing(form, TableLetters)
    ensures forall c :: c in TableLetters ==> c in r
  {
    r := form;
    var i := 0;
    while i < |TableLetters|
      invariant 0 <= i <= |TableLetters|
      invariant r == form + Missing(form, TableLetters[..i])
    {
      var ff := TableLetters[i];
      JavaString.ContainsChar(r, ff);
      LongFormStep(form, i);
      if JavaString.IndexOf(r, [ff]) == -1 {
        r := r + [ff];
      }
      i := i + 1;
    }
    assert TableLetters[..i] == TableLetters;
  }

  /**
   * longShape5: the shape padded with 1 to five entries; None where the
   * shape is longer (Java writes past the five-entry array).
   */
  method LongShape5(shape: seq<int>) returns (r: Option<seq<int>>)
    ensures |shape| > 5 <==> r.None?
    ensures r.Some? ==> |r.value| == 5 && r.value[..|shape|] == shape &&
                        forall i :: |shape| <= i < 5 ==> r.value[i] == 1
  {
    var fShape := new int[5](_ => 1);
    var i := 0;
    while i < |shape|
      invariant 0 <= i <= |shape|
      invariant i <= 5
      invariant forall k :: 0 <= k < i ==> fShape[k] == shape[k]
      invariant forall k :: i <= k < 5 ==> fShape[k] == 1
    {
      if i >= 5 {
        return None;
      }
      fShape[i] := shape[i];
      i := i + 1;
    }
    r := Some(fShape[..]);
  }

  /**
   * findTableForm: the axes guessed from the rank of a table shape; a
   * two-entry shape with a 1 puts the batch where that 1 is.
   */
  function FindTableForm(shape: seq<int>): (form: string)
    ensures |shape| == 1 ==> form == "R"
    ensures |shape| == 2 && 1 !in shape ==> form == "BR"
    ensures |shape| == 2 && 1 in shape ==> form == (if shape[0] == 1 then "BR" else "RB")
    ensures |shape| == 3 ==> form == "BRC"
    ensures |shape| == 0 || |shape| > 3 ==> form == ""
    ensures form != "" ==> |form| == |shape|
  {
    if |shape| == 1 then "R"
    else if |shape| == 2 && Index.FirstIndex(shape, 1) == -1 then "BR"
    else if |shape| == 2 && Index.FirstIndex(shape, 1) != -1 then
      (if Index.FirstIndex(shape, 1) == 0 then "BR" else "RB")
    else if |shape| == 3 then "BRC"
    else ""
  }

  /**
   * getTableTensorDims: one entry per form letter; the B slot is 1, the R
   * slot the row count dims[0], the C slot the column count dims[1], all
   * else 0. None where dims lacks the entry a letter asks for.
   */
  function GetTableTensorDims(dims: seq<int>, form: string): (r: Option<seq<int>>)
    ensures r.None? <==> ('R' in form && |dims| < 1) || ('C' in form && |dims| < 2)
    ensures r.Some? ==>
              |r.value| == |form| &&
              forall i :: 0 <= i < |form| ==>
                r.value[i] == (if i == Index.FirstIndex(form, 'C') then dims[1]
                               else if i == Index.FirstIndex(form, 'R') then dims[0]
                               else if i == Index.FirstIndex(form, 'B') then 1
                               else 0)
  {
    if ('R' in form && |dims| < 1) || ('C' in form && |dims| < 2) then None
    else
      var b := Index.FirstIndex(form, 'B');
      var rr := Index.FirstIndex(form, 'R');
      var c := Index.FirstIndex(form, 'C');
      var zeros := seq(|form|, _ => 0);
      var withB := if b != -1 then zeros[b := 1] else zeros;
      var withR := if rr != -1 then withB[rr := dims[0]] else withB;
      var withC := if c != -1 then withR[c := dims[1]] else withR;
      Some(withC)
  }

  /** The product of the sizes. */
  function Product(dims: seq<nat>): nat
  {
    if dims == [] then 1 else dims[0] * Product(dims[1..])
  }

  /** The table cell the source reads for one setting of the five counters. */
  function Entry(cell: (int, int) -> real, rInd: nat, cInd: nat, ctr: seq<int>): real
    requires |ctr| == 5
  {
    if rInd < 5 && cInd < 5 then cell(ctr[cInd], ctr[rInd]) else 0.0
  }

  /**
   * What the nested loops from one level inward produce, the outer
   * counters fixed at ctr: every remaining counter setting in row-major
   * order.
   */
  function Block(cell: (int, int) -> real, rInd: nat, cInd: nat, dims: seq<nat>, ctr: seq<int>): (r: seq<real>)
    requires |ctr| + |dims| == 5
    decreases |dims|, 1
    ensures |r| == Product(dims)
  {
    if dims == [] then [Entry(cell, rInd, cInd, ctr)]
    else Rows(cell, rInd, cInd, dims, ctr, dims[0])
  }

  /** The first `upTo` iterations of the loop over the outermost remaining counter. */
  function Rows(cell: (int, int) -> real, rInd: nat, cInd: nat, dims: seq<nat>, ctr: seq<int>, upTo: nat): (r: seq<real>)
    requires |dims| >= 1 && |ctr| + |dims| == 5
    decreases |dims|, 0, upTo
    ensures |r| == upTo * Product(dims[1..])
  {
    if upTo == 0 then []
    else
      var prev := Rows(cell, rInd, cInd, dims, ctr, upTo - 1);
      var next := Block(cell, rInd, cInd, dims[1..], ctr + [upTo - 1]);
      assert |prev + next| == (upTo - 1) * Product(dims[1..]) + Product(dims[1..]);
      prev + next
  }

  /** The positions of the row and column axes in the long form; both letters are there. */
  function RowColumn(form: string): (rc: (nat, nat))
    ensures 'R' in form && 'C' in form ==>
              rc.0 == Index.FirstIndex(form, 'R') && rc.1 == Index.FirstIndex(form, 'C')
  {
    var r := Index.FirstIndex(form, 'R');
    var c := Index.FirstIndex(form, 'C');
    (if r < 0 then 0 else r, if c < 0 then 0 else c)
  }

  /**
   * tableToFlatArray: a flat array of prod(arrayShape) values read through
   * five nested loops over the shape padded to five axes; the innermost
   * loop reads the table at the counters of the C and R axes of the long
   * form. None where the shape has more than five axes, and where R or C
   * lands past the fifth axis and the loops reach a read.
   */
  method TableToFlatArray(cell: (int, int) -> real, form: string, arrayShape: seq<nat>) returns (r: Option<seq<real>>)
    ensures |arrayShape| > 5 ==> r.None?
    ensures r.Some? ==> |r.value| == Product(arrayShape)
    ensures |arrayShape| <= 5 ==>
              var lf := form + Missing(form, TableLetters);
              var rc := RowColumn(lf);
              var ls := arrayShape + seq(5 - |arrayShape|, _ => 1);
              (r.None? <==> (rc.0 >= 5 || rc.1 >= 5) && Product(arrayShape) > 0) &&
              (r.Some? ==> r.value == Block(cell, rc.0, rc.1, ls, []))
  {
    var shapeInts: seq<int> := arrayShape;
    var nComponents := Product(arrayShape);
    var padded := LongShape5(shapeInts);
    if padded.None? {
      return None;
    }
    var ls: seq<nat> := arrayShape + seq(5 - |arrayShape|, _ => 1);
    assert padded.value == ls;
    ProductPadded(arrayShape);
    var lf := LongForm(form);
    var rInd, cInd := RowColumn(lf).0, RowColumn(lf).1;
    if (rInd >= 5 || cInd >= 5) && nComponents > 0 {
      return None;
    }
    var out := ReadTable(cell, rInd, cInd, ls);
    r := Some(out);
  }

  /**
   * The five nested loops of tableToFlatArray over the padded shape,
   * appending one table read per innermost step; the three inner loops
   * are ReadInner.
   */
  method ReadTable(cell: (int, int) -> real, rInd: nat, cInd: nat, ls: seq<nat>) returns (out: seq<real>)
    requires |ls| == 5
    ensures out == Block(cell, rInd, cInd, ls, [])
  {
    out := [];
    var t0 := 0;
    while t0 < ls[0]
      invariant 0 <= t0 <= ls[0]
      invariant out == Rows(cell, rInd, cInd, ls, [], t0)
    {
      var base1 := out;
      var t1 := 0;
      while t1 < ls[1]
        invariant 0 <= t1 <= ls[1]
        invariant out == base1 + Rows(cell, rInd, cInd, ls[1..], [t0], t1)
      {
        var inner := ReadInner(cell, rInd, cInd, ls[2..], [t0, t1]);
        out := out + inner;
        assert ls[1..][1..] == ls[2..];
        assert [t0] + [t1] == [t0, t1];
        t1 := t1 + 1;
      }
      assert [] + [t0] == [t0];
      assert out == base1 + Block(cell, rInd, cInd, ls[1..], [t0]);
      t0 := t0 + 1;
    }
  }

  /** The loops over the third, fourth and fifth counters, the first two fixed. */
  method ReadInner(cell: (int, int) -> real, rInd: nat, cInd: nat, ls: seq<nat>, ctr: seq<int>) returns (out: seq<real>)
    requires |ls| == 3 && |ctr| == 2
    ensures out == Block(cell, rInd, cInd, ls, ctr)
  {
    out := [];
    var t2 := 0;
    while t2 < ls[0]
      invariant 0 <= t2 <= ls[0]
      invariant out == Rows(cell, rInd, cInd, ls, ctr, t2)
    {
      var base3 := out;
      var t3 := 0;
      while t3 < ls[1]
        invariant 0 <= t3 <= ls[1]
        invariant out == base3 + Rows(cell, rInd, cInd, ls[1..], ctr + [t2], t3)
      {
        var base4 := out;
        var t4 := 0;
        while t4 < ls[2]
          invariant 0 <= t4 <= ls[2]
          invariant out == base4 + Rows(cell, rInd, cInd, ls[2..], ctr + [t2] + [t3], t4)
        {
          assert ctr + [t2] + [t3] + [t4] == [ctr[0], ctr[1], t2, t3, t4];
          out := out + [Entry(cell, rInd, cInd, [ctr[0], ctr[1], t2, t3, t4])];
          t4 := t4 + 1;
        }
        assert ls[1..][1..] == ls[2..];
        t3 := t3 + 1;
      }
      assert out == base3 + Block(cell, rInd, cInd, ls[1..], ctr + [t2]);
      t2 := t2 + 1;
    }
  }

  /** Padding a shape with sizes 1 keeps its product. */
  lemma {:induction false} ProductPadded(shape: seq<nat>)
    requires |shape| <= 5
    ensures Product(shape + seq(5 - |shape|, _ => 1)) == Product(shape)
  {
    ProductAppendOnes(shape, 5 - |shape|);
  }

  lemma {:induction false} ProductAppendOnes(shape: seq<nat>, n: nat)
    ensures Product(shape + seq(n, _ => 1)) == Product(shape)
    decreases |shape|
  {
    var ones: seq<nat> := seq(n, _ => 1);
    if shape == [] {
      assert shape + ones == ones;
      OnesProduct(n);
    } else {
      assert (shape + ones)[1..] == shape[1..] + ones;
      ProductAppendOnes(shape[1..], n);
    }
  }

  lemma {:induction false} OnesProduct(n: nat)
    ensures Product(seq(n, _ => 1)) == 1
  {
    if n > 0 {
      assert seq(n, _ => 1)[1..] == seq(n - 1, _ => 1);
      OnesProduct(n - 1);
    }
  }

  /**
   * The flat array is row-major: the entry at position t * prod(rest) + p
   * of a loop level is entry p of the block with that level's counter at t.
   */
  lemma {:induction false} RowsAt(cell: (int, int) -> real, rInd: nat, cInd: nat, dims: seq<nat>, ctr: seq<int>, upTo: nat, t: nat, p: nat)
    requires |dims| >= 1 && |ctr| + |dims| == 5
    requires t < upTo && p < Product(dims[1..])
    ensures t * Product(dims[1..]) + p < |Rows(cell, rInd, cInd, dims, ctr, upTo)|
    ensures Rows(cell, rInd, cInd, dims, ctr, upTo)[t * Product(dims[1..]) + p] ==
            Block(cell, rInd, cInd, dims[1..], ctr + [t])[p]
    decreases upTo
  {
    var m := Product(dims[1..]);
    var prev := Rows(cell, rInd, cInd, dims, ctr, upTo - 1);
    IntArith.MulMonotone(t, upTo - 1, m);
    if t < upTo - 1 {
      RowsAt(cell, rInd, cInd, dims, ctr, upTo - 1, t, p);
    }
  }

  /** With the row and column counters fixed, the three inner unit loops give one cell. */
  lemma InnerCell(cell: (int, int) -> real, row: nat, col: nat)
    ensures Block(cell, 0, 1, [1, 1, 1], [row, col]) == [cell(col, row)]
  {
    var ones: seq<nat> := [1, 1, 1];
    assert ones[1..] == [1, 1] && [1, 1][1..] == [1] && [1][1..] == [];
    assert Block(cell, 0, 1, ones, [row, col]) == Block(cell, 0, 1, [1, 1], [row, col, 0]) by {
      assert [row, col] + [0] == [row, col, 0];
    }
    assert Block(cell, 0, 1, [1, 1], [row, col, 0]) == Block(cell, 0, 1, [1], [row, col, 0, 0]) by {
      assert [row, col, 0] + [0] == [row, col, 0, 0];
    }
    assert Block(cell, 0, 1, [1], [row, col, 0, 0]) == [Entry(cell, 0, 1, [row, col, 0, 0, 0])] by {
      assert [row, col, 0, 0] + [0] == [row, col, 0, 0, 0];
    }
  }

  /**
   * For a two-axis table whose form starts "RC" (rows, then columns), entry
   * row * nCols + col of the flat array is the cell at (col, row).
   */
  lemma {:induction false} RowMajorTable(cell: (int, int) -> real, nRows: nat, nCols: nat, row: nat, col: nat)
    requires row < nRows && col < nCols
    ensures var flat := Block(cell, 0, 1, [nRows, nCols, 1, 1, 1], []);
            row * nCols + col < |flat| && flat[row * nCols + col] == cell(col, row)
  {
    TableRow(cell, nRows, nCols, row, col);
    RowCell(cell, nCols, row, col);
  }

  /** Position row * nCols + col of the table is position col of row `row`. */
  lemma TableRow(cell: (int, int) -> real, nRows: nat, nCols: nat, row: nat, col: nat)
    requires row < nRows && col < nCols
    ensures var flat := Block(cell, 0, 1, [nRows, nCols, 1, 1, 1], []);
            var line := Block(cell, 0, 1, [nCols, 1, 1, 1], [row]);
            row * nCols + col < |flat| && col < |line| && flat[row * nCols + col] == line[col]
  {
    var dims: seq<nat> := [nRows, nCols, 1, 1, 1];
    var inner: seq<nat> := [nCols, 1, 1, 1];
    assert dims[1..] == inner && inner[1..] == [1, 1, 1];
    assert Product([1, 1, 1]) == 1 by {
      assert [1, 1, 1][1..] == [1, 1] && [1, 1][1..] == [1] && [1][1..] == [];
    }
    assert Product(inner) == nCols;
    RowsAt(cell, 0, 1, dims, [], nRows, row, col);
    assert [] + [row] == [row];
    assert Block(cell, 0, 1, dims, []) == Rows(cell, 0, 1, dims, [], nRows);
  }

  /** Position col of row `row` is the cell at (col, row). */
  lemma RowCell(cell: (int, int) -> real, nCols: nat, row: nat, col: nat)
    requires col < nCols
    ensures var line := Block(cell, 0, 1, [nCols, 1, 1, 1], [row]);
            col < |line| && line[col] == cell(col, row)
  {
    var inner: seq<nat> := [nCols, 1, 1, 1];
    var ones: seq<nat> := [1, 1, 1];
    assert inner[1..] == ones;
    assert Product(ones) == 1 by {
      assert ones[1..] == [1, 1] && [1, 1][1..] == [1] && [1][1..] == [];
    }
    RowsAt(cell, 0, 1, inner, [row], nCols, col, 0);
    assert [row] + [col] == [row, col];
    InnerCell(cell, row, col);
    assert Block(cell, 0, 1, inner, [row]) == Rows(cell, 0, 1, inner, [row], nCols);
  }
}
