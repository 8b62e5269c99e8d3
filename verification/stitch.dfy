/**
  Face-list builders that stitch vertex grids and close vertex rings:
  Build_Face_List_Quads and Fill_Ring_Face.
 */
module Stitch {
  import opened Geometry
  import opened MeshOps

  datatype Option<T> = None | Some(value: T)

  // ---------------------------------------------------------------------------
  // Build_Face_List_Quads
  // ---------------------------------------------------------------------------

  /**
    Reference layout: grid vertex (row j, column i) of a grid with `colum`
    cells per row sits at offset + j * (colum + 1) + i, row-major.
   */
  function GridVertex(offset: int, colum: int, j: int, i: int): int {
    offset + j * (colum + 1) + i
  }

  /**
    Reference cell: the quad of cell (j, i). Without FLIP it runs
    (j, i+1), (j+1, i+1), (j+1, i), (j, i); with FLIP the opposite way.
   */
  function GridQuad(offset: int, colum: int, j: int, i: int, flip: bool): Face {
    var lowLeft := GridVertex(offset, colum, j, i);
    var upLeft := GridVertex(offset, colum, j + 1, i);
    var upRight := GridVertex(offset, colum, j + 1, i + 1);
    var lowRight := GridVertex(offset, colum, j, i + 1);
    if flip then [lowLeft, upLeft, upRight, lowRight] else [lowRight, upRight, upLeft, lowLeft]
  }

  /**
    One quad as the source builds it from RowStart and the column `i`: the
    four grid points of one cell, namely a point, its right neighbour and
    the two points one row (COLUM + 1 points) further on. It starts from
    the cell's first point when FLIP is set and ends on it otherwise.
   */
  function SourceQuad(offset: int, rowStart: int, colum: int, i: int, flip: bool): (r: Face)
    ensures |r| == 4
    ensures flip ==> r[0] == offset + rowStart + i
    ensures !flip ==> r[3] == offset + rowStart + i
  {
    var res1 := rowStart + i;
    var res2 := rowStart + i + (colum + 1);
    var res3 := rowStart + i + (colum + 1) + 1;
    var res4 := rowStart + i + 1;
    if flip then [offset + res1, offset + res2, offset + res3, offset + res4]
    else [offset + res4, offset + res3, offset + res2, offset + res1]
  }

  /** The corners of a source quad are the four grid points of its cell, each once. */
  lemma SourceQuadCorners(offset: int, rowStart: int, colum: int, i: int, flip: bool)
    ensures var p := offset + rowStart + i;
      multiset(SourceQuad(offset, rowStart, colum, i, flip)) == multiset{p, p + 1, p + colum + 1, p + colum + 2}
  {
  }

  /** The first `m` quads of the row beginning at `rowStart`. */
  function RowQuads(offset: int, rowStart: int, colum: int, m: nat, flip: bool): (r: seq<Face>)
    ensures |r| == m
    ensures forall i :: 0 <= i < m ==> r[i] == SourceQuad(offset, rowStart, colum, i, flip)
  {
    if m == 0 then [] else RowQuads(offset, rowStart, colum, m - 1, flip) + [SourceQuad(offset, rowStart, colum, m - 1, flip)]
  }

  /** The quads of the first `n` rows; RowStart advances by colum + 1 per row. */
  function GridRows(offset: int, colum: int, n: nat, flip: bool): (r: seq<Face>)
    ensures |r| == n * Count(colum)
    decreases n
  {
    if n == 0 then []
    else
      var prev := GridRows(offset, colum, n - 1, flip);
      assert (n - 1) * Count(colum) + Count(colum) == n * Count(colum);
      prev + RowQuads(offset, (n - 1) * (colum + 1), colum, Count(colum), flip)
  }

  /** Build_Face_List_Quads: quads over a (colum + 1) x (row + 1) vertex grid starting at `offset`. */
  function BuildFaceListQuads(offset: int, colum: int, row: int, flip: bool): (r: seq<Face>)
    ensures |r| == Count(colum) * Count(row)
  {
    GridRows(offset, colum, Count(row), flip)
  }

  /** The source's RowStart bookkeeping produces exactly the reference cell quads. */
  lemma SourceQuadIsGridQuad(offset: int, colum: int, j: int, i: int, flip: bool)
    ensures SourceQuad(offset, j * (colum + 1), colum, i, flip) == GridQuad(offset, colum, j, i, flip)
  {
    assert (j + 1) * (colum + 1) == j * (colum + 1) + (colum + 1);
  }

  /** Quad number j * colum + i of the list is the reference quad of cell (j, i). */
  lemma {:induction false} GridRowsContents(offset: int, colum: int, n: nat, flip: bool, j: nat, i: nat)
    requires j < n && i < Count(colum)
    ensures j * Count(colum) + i < |GridRows(offset, colum, n, flip)|
    ensures GridRows(offset, colum, n, flip)[j * Count(colum) + i] == GridQuad(offset, colum, j, i, flip)
    decreases n
  {
    var c := Count(colum);
    var prev := GridRows(offset, colum, n - 1, flip);
    var last := RowQuads(offset, (n - 1) * (colum + 1), colum, c, flip);
    assert GridRows(offset, colum, n, flip) == prev + last;
    MulMono(j, n - 1, c);
    if j == n - 1 {
      assert (prev + last)[j * c + i] == last[i];
      SourceQuadIsGridQuad(offset, colum, j, i, flip);
    } else {
      GridRowsContents(offset, colum, n - 1, flip, j, i);
      MulMono(j + 1, n - 1, c);
    }
  }

  /** Every quad of BuildFaceListQuads is the reference quad of its cell. */
  lemma BuildFaceListQuadsCells(offset: int, colum: int, row: int, flip: bool, j: nat, i: nat)
    requires j < Count(row) && i < Count(colum)
    ensures j * Count(colum) + i < |BuildFaceListQuads(offset, colum, row, flip)|
    ensures BuildFaceListQuads(offset, colum, row, flip)[j * Count(colum) + i] == GridQuad(offset, colum, j, i, flip)
  {
    GridRowsContents(offset, colum, Count(row), flip, j, i);
  }

  /** A reference cell quad has four distinct corners inside the grid's index window. */
  lemma GridQuadShape(offset: int, colum: nat, row: nat, j: nat, i: nat, flip: bool)
    requires j < row && i < colum
    ensures WellShaped(GridQuad(offset, colum, j, i, flip))
    ensures IndicesIn(GridQuad(offset, colum, j, i, flip), offset, offset + (colum + 1) * (row + 1))
  {
    MulMono(j + 1, row, colum + 1);
    assert (row + 1) * (colum + 1) == row * (colum + 1) + colum + 1;
    assert (colum + 1) * (row + 1) == (row + 1) * (colum + 1);
  }

  /** With FLIP the quad of each cell is the non-flipped quad in reverse order. */
  lemma GridQuadFlip(offset: int, colum: int, j: int, i: int)
    ensures GridQuad(offset, colum, j, i, true) == Reverse(GridQuad(offset, colum, j, i, false))
  {
  }

  lemma {:induction false} GridRowsShape(offset: int, colum: nat, n: nat, flip: bool, rows: nat)
    requires n <= rows
    ensures forall q :: 0 <= q < |GridRows(offset, colum, n, flip)| ==>
      WellShaped(GridRows(offset, colum, n, flip)[q])
    ensures FacesIn(GridRows(offset, colum, n, flip), offset, offset + (colum + 1) * (rows + 1))
    decreases n
  {
    if n > 0 {
      GridRowsShape(offset, colum, n - 1, flip, rows);
      var prev := GridRows(offset, colum, n - 1, flip);
      var last := RowQuads(offset, (n - 1) * (colum + 1), colum, colum, flip);
      assert GridRows(offset, colum, n, flip) == prev + last;
      forall i | 0 <= i < colum
        ensures WellShaped(last[i])
        ensures IndicesIn(last[i], offset, offset + (colum + 1) * (rows + 1))
      {
        SourceQuadIsGridQuad(offset, colum, n - 1, i, flip);
        GridQuadShape(offset, colum, rows, n - 1, i, flip);
      }
    }
  }

  /**
    Every quad of Build_Face_List_Quads has four distinct indices, all in
    [offset, offset + (colum + 1) * (row + 1)): the row stride is colum + 1.
   */
  lemma BuildFaceListQuadsValid(offset: int, colum: int, row: int, flip: bool)
    ensures var r := BuildFaceListQuads(offset, colum, row, flip);
      (forall q :: 0 <= q < |r| ==> WellShaped(r[q]))
      && FacesIn(r, offset, offset + (Count(colum) + 1) * (Count(row) + 1))
  {
    var r := BuildFaceListQuads(offset, colum, row, flip);
    if colum < 0 {
      assert |r| == 0;
    } else {
      GridRowsShape(offset, colum, Count(row), flip, Count(row));
    }
  }

  /** The FLIP list is the non-flipped list with every quad reversed. */
  lemma {:induction false} BuildFaceListQuadsFlip(offset: int, colum: int, row: int)
    ensures var up := BuildFaceListQuads(offset, colum, row, false);
      var down := BuildFaceListQuads(offset, colum, row, true);
      |up| == |down| && forall q :: 0 <= q < |up| ==> down[q] == Reverse(up[q])
  {
    GridRowsFlip(offset, colum, Count(row));
  }

  lemma SourceQuadFlip(offset: int, rowStart: int, colum: int, i: int)
    ensures SourceQuad(offset, rowStart, colum, i, true) == Reverse(SourceQuad(offset, rowStart, colum, i, false))
  {
    var u := SourceQuad(offset, rowStart, colum, i, false);
    assert |Reverse(u)| == 4;
  }

  lemma {:induction false} GridRowsFlip(offset: int, colum: int, n: nat)
    ensures var up := GridRows(offset, colum, n, false);
      var down := GridRows(offset, colum, n, true);
      |up| == |down| && forall q :: 0 <= q < |up| ==> down[q] == Reverse(up[q])
    decreases n
  {
    if n > 0 {
      GridRowsFlip(offset, colum, n - 1);
      var rs := (n - 1) * (colum + 1);
      var u := RowQuads(offset, rs, colum, Count(colum), false);
      var d := RowQuads(offset, rs, colum, Count(colum), true);
      var pu := GridRows(offset, colum, n - 1, false);
      var pd := GridRows(offset, colum, n - 1, true);
      assert GridRows(offset, colum, n, false) == pu + u;
      assert GridRows(offset, colum, n, true) == pd + d;
      forall i | 0 <= i < |u|
        ensures d[i] == Reverse(u[i])
      {
        SourceQuadFlip(offset, rs, colum, i);
      }
    }
  }

  // ---------------------------------------------------------------------------
  // Fill_Ring_Face
  // ---------------------------------------------------------------------------

  /** The three-slot `Face` working variable of Fill_Ring_Face (slots A, B, C). */
  datatype Slots = Slots(a: int, b: int, c: int)

  /**
    The slot update of loop iteration `i`: the old C becomes the new A,
    the old B the new C, and B moves one point round the ring from the old
    C, forward on odd iterations and backward (wrapping from 0 to NUM - 1)
    on even ones.
   */
  function NextSlots(s: Slots, i: int, num: int): (r: Slots)
    ensures r.a == s.c && r.c == s.b
    ensures i % 2 == 1 ==> r.b == s.c + 1
    ensures num > 0 && i % 2 == 0 ==> r.b % num == (s.c - 1) % num
    ensures i % 2 == 0 && 0 <= s.c < num ==> 0 <= r.b < num
  {
    if i % 2 == 1 then Slots(s.c, s.c + 1, s.b)
    else Slots(s.c, if s.c == 0 then num - 1 else s.c - 1, s.b)
  }

  /** The triangle emitted in iteration `i`, before the slots are updated. */
  function EmitTriangle(offset: int, s: Slots, i: int, faceDown: bool): Face {
    var up := offset + s.a;
    var mid := offset + s.b;
    var last := offset + s.c;
    if i % 2 == 1 then (if faceDown then [last, mid, up] else [up, mid, last])
    else (if faceDown then [up, mid, last] else [last, mid, up])
  }

  /** The triangles of the first `n` iterations and the slots after them. */
  function RingLoop(offset: int, num: int, n: nat, faceDown: bool): (r: (seq<Face>, Slots))
    ensures |r.0| == n
  {
    if n == 0 then ([], Slots(1, 2, 0))
    else
      var prev := RingLoop(offset, num, n - 1, faceDown);
      (prev.0 + [EmitTriangle(offset, prev.1, n - 1, faceDown)], NextSlots(prev.1, n - 1, num))
  }

  /** Fill_Ring_Face: None for fewer than three ring vertices, else NUM - 2 triangles. */
  function FillRingFace(offset: int, num: int, faceDown: bool): (r: Option<seq<Face>>)
    ensures r.None? <==> num < 3
    ensures r.Some? ==> |r.value| == num - 2
  {
    if num < 3 then None else Some(RingLoop(offset, num, num - 2, faceDown).0)
  }

  /**
    Reference zig-zag: triangle `i` of a ring of `num` vertices, upward
    winding, relative to the ring start. Even steps take two vertices from
    the front, odd steps two from the back.
   */
  function ZigZag(num: int, i: nat): Face {
    var m := i / 2;
    var back := if m == 0 then 0 else num - m;
    if i % 2 == 0 then [back, m + 2, m + 1] else [back, num - m - 1, m + 2]
  }

  /** Slots after `n` iterations, in closed form. */
  function SlotsAfter(num: int, n: nat): Slots {
    var m := n / 2;
    if n % 2 == 0 then (if m == 0 then Slots(1, 2, 0) else Slots(m + 1, m + 2, num - m))
    else Slots(if m == 0 then 0 else num - m, num - m - 1, m + 2)
  }

  /** Zig-zag triangle `i` placed at `offset`, wound downward when `faceDown` is set. */
  function ZigZagPlaced(offset: int, num: int, i: nat, faceDown: bool): Face {
    if faceDown then Reverse(ShiftFace(ZigZag(num, i), offset)) else ShiftFace(ZigZag(num, i), offset)
  }

  /** One loop iteration from the closed-form slots: the next slots and the emitted triangle. */
  lemma SlotsStep(offset: int, num: int, i: nat, faceDown: bool)
    requires num >= 3 && i < num - 2
    ensures NextSlots(SlotsAfter(num, i), i, num) == SlotsAfter(num, i + 1)
    ensures EmitTriangle(offset, SlotsAfter(num, i), i, faceDown) == ZigZagPlaced(offset, num, i, faceDown)
  {
    var m := i / 2;
    if i % 2 == 0 {
      assert (i + 1) / 2 == m && (i + 1) % 2 == 1;
    } else {
      assert (i + 1) / 2 == m + 1 && (i + 1) % 2 == 0;
    }
    var z := ShiftFace(ZigZag(num, i), offset);
    assert |z| == 3 && |Reverse(z)| == 3;
  }

  lemma {:induction false} RingLoopClosedForm(offset: int, num: int, n: nat, faceDown: bool)
    requires num >= 3 && n <= num - 2
    ensures RingLoop(offset, num, n, faceDown).1 == SlotsAfter(num, n)
    ensures forall i :: 0 <= i < n ==> RingLoop(offset, num, n, faceDown).0[i] == ZigZagPlaced(offset, num, i, faceDown)
    decreases n
  {
    if n > 0 {
      var i := n - 1;
      RingLoopClosedForm(offset, num, i, faceDown);
      SlotsStep(offset, num, i, faceDown);
      var prev := RingLoop(offset, num, i, faceDown).0;
      assert RingLoop(offset, num, n, faceDown).0 == prev + [ZigZagPlaced(offset, num, i, faceDown)];
    }
  }

  /**
    Fill_Ring_Face produces the zig-zag triangulation: NUM - 2 triangles of
    three distinct indices in [OFFSET, OFFSET + NUM), and FACE_DOWN
    reverses each triangle.
   */
  lemma FillRingFaceSpec(offset: int, num: int, faceDown: bool)
    requires num >= 3
    ensures var r := FillRingFace(offset, num, faceDown);
      r.Some? && |r.value| == num - 2
      && forall i :: 0 <= i < num - 2 ==>
        r.value[i] == ZigZagPlaced(offset, num, i, faceDown)
  {
    RingLoopClosedForm(offset, num, num - 2, faceDown);
  }

  /** Each zig-zag triangle has three distinct corners inside the ring. */
  lemma ZigZagShape(num: int, i: nat)
    requires num >= 3 && i < num - 2
    ensures WellShaped(ZigZag(num, i)) && IndicesIn(ZigZag(num, i), 0, num)
  {
  }

  /** Every triangle of Fill_Ring_Face is well shaped and indexes only the ring. */
  lemma FillRingFaceValid(offset: int, num: int, faceDown: bool)
    requires num >= 3
    ensures var r := FillRingFace(offset, num, faceDown).value;
      (forall q :: 0 <= q < |r| ==> WellShaped(r[q])) && FacesIn(r, offset, offset + num)
  {
    FillRingFaceSpec(offset, num, faceDown);
    var r := FillRingFace(offset, num, faceDown).value;
    forall q | 0 <= q < |r|
      ensures WellShaped(r[q]) && IndicesIn(r[q], offset, offset + num)
    {
      ZigZagShape(num, q);
      var z := ShiftFace(ZigZag(num, q), offset);
      assert WellShaped(z) && IndicesIn(z, offset, offset + num);
      assert |Reverse(z)| == 3;
    }
  }

  /** FACE_DOWN gives each triangle of the upward fill in reverse order. */
  lemma FillRingFaceDown(offset: int, num: int)
    requires num >= 3
    ensures var up := FillRingFace(offset, num, false).value;
      var down := FillRingFace(offset, num, true).value;
      |up| == |down| && forall q :: 0 <= q < |up| ==> down[q] == Reverse(up[q])
  {
    FillRingFaceSpec(offset, num, false);
    FillRingFaceSpec(offset, num, true);
  }
}
