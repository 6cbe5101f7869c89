/**
 * Output produced by the nested `for (y) for (x)` loops of the exporters and
 * mesh builders: each visited cell appends zero or more records, rows in
 * order and cells left to right within a row.
 */
module RowMajor {

  /** The records of cells 0..x-1 of row y. */
  function Row<T>(x: nat, y: int, cell: (int, int) -> seq<T>): seq<T>
  {
    if x == 0 then [] else Row(x - 1, y, cell) + cell(x - 1, y)
  }

  /** The records of rows 0..y-1, each of `w` cells. */
  function Rows<T>(w: nat, y: nat, cell: (int, int) -> seq<T>): seq<T>
  {
    if y == 0 then [] else Rows(w, y - 1, cell) + Row(w, y - 1, cell)
  }

  /** The records emitted before cell (x, y) in a row-major walk of width w. */
  function Before<T>(w: nat, x: nat, y: nat, cell: (int, int) -> seq<T>): seq<T>
  {
    Rows(w, y, cell) + Row(x, y, cell)
  }

  /** A longer row prefix has at least as many records. */
  lemma {:induction false} RowLonger<T>(x1: nat, x2: nat, y: int, cell: (int, int) -> seq<T>)
    requires x1 <= x2
    ensures |Row(x1, y, cell)| <= |Row(x2, y, cell)|
    decreases x2
  {
    if x1 < x2 {
      RowLonger(x1, x2 - 1, y, cell);
    }
  }

  lemma {:induction false} RowsLonger<T>(w: nat, y1: nat, y2: nat, cell: (int, int) -> seq<T>)
    requires y1 <= y2
    ensures |Rows(w, y1, cell)| <= |Rows(w, y2, cell)|
    decreases y2
  {
    if y1 < y2 {
      RowsLonger(w, y1, y2 - 1, cell);
    }
  }

  /** Extending a row keeps the records already emitted in place. */
  lemma {:induction false} RowAt<T>(x1: nat, x2: nat, y: int, cell: (int, int) -> seq<T>, i: nat)
    requires x1 <= x2 && i < |Row(x1, y, cell)|
    ensures i < |Row(x2, y, cell)| && Row(x2, y, cell)[i] == Row(x1, y, cell)[i]
    decreases x2
  {
    if x1 < x2 {
      RowAt(x1, x2 - 1, y, cell, i);
      assert Row(x2, y, cell) == Row(x2 - 1, y, cell) + cell(x2 - 1, y);
    }
  }

  lemma {:induction false} RowsAt<T>(w: nat, y1: nat, y2: nat, cell: (int, int) -> seq<T>, i: nat)
    requires y1 <= y2 && i < |Rows(w, y1, cell)|
    ensures i < |Rows(w, y2, cell)| && Rows(w, y2, cell)[i] == Rows(w, y1, cell)[i]
    decreases y2
  {
    if y1 < y2 {
      RowsAt(w, y1, y2 - 1, cell, i);
      assert Rows(w, y2, cell) == Rows(w, y2 - 1, cell) + Row(w, y2 - 1, cell);
    }
  }

  /**
   * Row-major order is kept: an earlier cell's records end no later than a
   * later cell's begin, and all of them lie within the whole output.
   */
  lemma BeforeOrder<T>(w: nat, h: nat, x1: nat, y1: nat, x2: nat, y2: nat, cell: (int, int) -> seq<T>)
    requires x1 < w && x2 <= w && y1 <= y2 < h
    requires y1 < y2 || x1 < x2
    ensures |Before(w, x1 + 1, y1, cell)| <= |Before(w, x2, y2, cell)|
    ensures |Before(w, x2, y2, cell)| <= |Rows(w, h, cell)|
  {
    assert |Before(w, x2, y2, cell)| <= |Rows(w, y2 + 1, cell)| by {
      RowLonger(x2, w, y2, cell);
      BeforeRowEnd(w, y2, cell);
    }
    RowsLonger(w, y2 + 1, h, cell);
    if y1 == y2 {
      RowLonger(x1 + 1, x2, y1, cell);
    } else {
      assert |Before(w, x1 + 1, y1, cell)| <= |Rows(w, y1 + 1, cell)| by {
        RowLonger(x1 + 1, w, y1, cell);
        BeforeRowEnd(w, y1, cell);
      }
      RowsLonger(w, y1 + 1, y2, cell);
    }
  }

  /** A cell's own records sit right after the records emitted before it. */
  lemma CellAt<T>(w: nat, h: nat, x: nat, y: nat, cell: (int, int) -> seq<T>, j: nat)
    requires x < w && y < h && j < |cell(x, y)|
    ensures var k := |Before(w, x, y, cell)| + j;
            k < |Rows(w, h, cell)| && Rows(w, h, cell)[k] == cell(x, y)[j]
  {
    var k := |Before(w, x, y, cell)| + j;
    assert k < |Before(w, x + 1, y, cell)| && Before(w, x + 1, y, cell)[k] == cell(x, y)[j] by {
      BeforeStep(w, x, y, cell);
    }
    BeforeAt(w, h, x + 1, y, cell, k);
  }

  /** The records emitted before a cell stay in place in the whole output. */
  lemma BeforeAt<T>(w: nat, h: nat, x: nat, y: nat, cell: (int, int) -> seq<T>, i: nat)
    requires x <= w && y < h && i < |Before(w, x, y, cell)|
    ensures i < |Rows(w, h, cell)| && Rows(w, h, cell)[i] == Before(w, x, y, cell)[i]
  {
    var done := Rows(w, y, cell);
    assert Rows(w, y + 1, cell) == done + Row(w, y, cell);
    if i < |done| {
      assert Before(w, x, y, cell)[i] == done[i];
      assert Rows(w, y + 1, cell)[i] == done[i];
    } else {
      RowAt(x, w, y, cell, i - |done|);
      assert Before(w, x, y, cell)[i] == Row(x, y, cell)[i - |done|];
      assert Rows(w, y + 1, cell)[i] == Row(w, y, cell)[i - |done|];
    }
    RowsAt(w, y + 1, h, cell, i);
  }

  /** With k records per cell, record j of cell (x, y) is record k * (y * w + x) + j of the walk. */
  lemma CellAtUniform<T>(w: nat, h: nat, x: nat, y: nat, cell: (int, int) -> seq<T>, k: nat, j: nat)
    requires x < w && y < h && j < k
    requires forall i, l :: |cell(i, l)| == k
    ensures k * (y * w + x) + j < |Rows(w, h, cell)| && Rows(w, h, cell)[k * (y * w + x) + j] == cell(x, y)[j]
  {
    CellAt(w, h, x, y, cell, j);
    BeforeLength(w, x, y, cell, k);
  }

  /** With k records per cell, the records before cell (x, y) number k * (y * w + x). */
  lemma BeforeLength<T>(w: nat, x: nat, y: nat, cell: (int, int) -> seq<T>, k: nat)
    requires forall i, j :: |cell(i, j)| == k
    ensures |Before(w, x, y, cell)| == k * (y * w + x)
  {
    RowsLength(w, y, cell, k);
    RowLength(x, y, cell, k);
    assert k * (y * w + x) == k * (y * w) + k * x;
    assert k * w * y == k * (y * w);
  }

  /** Every record of a row-major output comes from a cell of the walked rectangle. */
  lemma RowsMembers<T>(w: nat, h: nat, cell: (int, int) -> seq<T>, e: T) returns (x: nat, y: nat)
    requires e in Rows(w, h, cell)
    ensures x < w && y < h && e in cell(x, y)
  {
    var i :| 0 <= i < |Rows(w, h, cell)| && Rows(w, h, cell)[i] == e;
    var j;
    x, y, j := RowsIndex(w, h, cell, i);
  }

  /** Record i of the walk is record j of some cell (x, y) inside the rectangle. */
  lemma {:induction false} RowsIndex<T>(w: nat, h: nat, cell: (int, int) -> seq<T>, i: nat) returns (x: nat, y: nat, j: nat)
    requires i < |Rows(w, h, cell)|
    ensures x < w && y < h && j < |cell(x, y)| && Rows(w, h, cell)[i] == cell(x, y)[j]
  {
    assert h > 0;
    var pre := Rows(w, h - 1, cell);
    assert Rows(w, h, cell) == pre + Row(w, h - 1, cell);
    if i < |pre| {
      x, y, j := RowsIndex(w, h - 1, cell, i);
    } else {
      x, j := RowIndex(w, h - 1, cell, i - |pre|);
      y := h - 1;
    }
  }

  lemma {:induction false} RowIndex<T>(n: nat, y: int, cell: (int, int) -> seq<T>, i: nat) returns (x: nat, j: nat)
    requires i < |Row(n, y, cell)|
    ensures x < n && j < |cell(x, y)| && Row(n, y, cell)[i] == cell(x, y)[j]
  {
    assert n > 0;
    var pre := Row(n - 1, y, cell);
    assert Row(n, y, cell) == pre + cell(n - 1, y);
    if i < |pre| {
      x, j := RowIndex(n - 1, y, cell, i);
    } else {
      x, j := n - 1, i - |pre|;
    }
  }

  /** When every cell emits exactly k records, a rectangle of w x h cells emits k * w * h. */
  lemma {:induction false} RowsLength<T>(w: nat, h: nat, cell: (int, int) -> seq<T>, k: nat)
    requires forall x, y :: |cell(x, y)| == k
    ensures |Rows(w, h, cell)| == k * w * h
  {
    if h > 0 {
      RowsLength(w, h - 1, cell, k);
      RowLength(w, h - 1, cell, k);
      assert k * w * h == k * w * (h - 1) + k * w;
    }
  }

  lemma {:induction false} RowLength<T>(x: nat, y: int, cell: (int, int) -> seq<T>, k: nat)
    requires forall i, j :: |cell(i, j)| == k
    ensures |Row(x, y, cell)| == k * x
  {
    if x > 0 {
      RowLength(x - 1, y, cell, k);
    }
  }

  /** A count of the cells of a w x h rectangle is at most w * h. */
  lemma {:induction false} RowsAtMost<T>(w: nat, h: nat, cell: (int, int) -> seq<T>, k: nat)
    requires forall x, y :: |cell(x, y)| <= k
    ensures |Rows(w, h, cell)| <= k * w * h
  {
    if h > 0 {
      RowsAtMost(w, h - 1, cell, k);
      RowAtMost(w, h - 1, cell, k);
      assert k * w * h == k * w * (h - 1) + k * w;
    }
  }

  lemma {:induction false} RowAtMost<T>(x: nat, y: int, cell: (int, int) -> seq<T>, k: nat)
    requires forall i, j :: |cell(i, j)| <= k
    ensures |Row(x, y, cell)| <= k * x
  {
    if x > 0 {
      RowAtMost(x - 1, y, cell, k);
    }
  }

  /** One more cell of row y: its records follow those before it. */
  lemma BeforeStep<T>(w: nat, x: nat, y: nat, cell: (int, int) -> seq<T>)
    ensures Before(w, x + 1, y, cell) == Before(w, x, y, cell) + cell(x, y)
  {
  }

  /** A finished row y: the records before its end are the first y + 1 rows. */
  lemma BeforeRowEnd<T>(w: nat, y: nat, cell: (int, int) -> seq<T>)
    ensures Before(w, w, y, cell) == Rows(w, y + 1, cell)
    ensures Before(w, 0, y, cell) == Rows(w, y, cell)
  {
  }
}
