/** The piece catalog of `src/minos.rs`: the seven tetromino types, each
    with its fixed list of rotation matrices (0 = empty sub-cell, 1 =
    occupied), and the constructor of a fresh piece.  The random choice of
    `Mino::new` is taken as the argument `selected`.  The type numbering
    here is the catalog's own (T=0 … I=6), not the block ids of module
    Consts. */
module Minos {
  import opened Uints

  const T_BLOCK: u8 := 0
  const J_BLOCK: u8 := 1
  const Z_BLOCK: u8 := 2
  const O_BLOCK: u8 := 3
  const S_BLOCK: u8 := 4
  const L_BLOCK: u8 := 5
  const I_BLOCK: u8 := 6
  const MINO_TYPES: u8 := 7

  /** One rotation state: rows of sub-cells. */
  type Rotation = seq<seq<u8>>

  datatype Mino = Mino(rotations: seq<Rotation>, selectedMino: u8, currentRotation: nat)

  const T_ROTATIONS: seq<Rotation> := [
    [[0, 0, 0], [1, 1, 1], [0, 1, 0]],
    [[0, 1, 0], [1, 1, 0], [0, 1, 0]],
    [[0, 1, 0], [1, 1, 1], [0, 0, 0]],
    [[0, 1, 0], [0, 1, 1], [0, 1, 0]]
  ]

  const J_ROTATIONS: seq<Rotation> := [
    [[0, 0, 0], [1, 1, 1], [0, 0, 1]],
    [[0, 1, 0], [0, 1, 0], [1, 1, 0]],
    [[1, 0, 0], [1, 1, 1], [0, 0, 0]],
    [[0, 1, 1], [0, 1, 0], [0, 1, 0]]
  ]

  const Z_ROTATIONS: seq<Rotation> := [
    [[0, 0, 0], [0, 1, 1], [1, 1, 0]],
    [[0, 1, 0], [0, 1, 1], [0, 0, 1]]
  ]

  const O_ROTATIONS: seq<Rotation> := [
    [[1, 1], [1, 1]]
  ]

  const S_ROTATIONS: seq<Rotation> := [
    [[0, 0, 0], [1, 1, 0], [0, 1, 1]],
    [[0, 0, 1], [0, 1, 1], [0, 1, 0]]
  ]

  const L_ROTATIONS: seq<Rotation> := [
    [[0, 0, 0], [1, 1, 1], [1, 0, 0]],
    [[1, 1, 0], [0, 1, 0], [0, 1, 0]],
    [[0, 0, 1], [1, 1, 1], [0, 0, 0]],
    [[0, 1, 0], [0, 1, 0], [0, 1, 1]]
  ]

  const I_ROTATIONS: seq<Rotation> := [
    [[1, 1, 1, 1]],
    [[1], [1], [1], [1]]
  ]

  /** The rotation list `Mino::new` builds for a selected type; any value
      outside the seven types falls through and leaves the list empty. */
  function RotationTable(selected: u8): seq<Rotation> {
    if selected == T_BLOCK then T_ROTATIONS
    else if selected == J_BLOCK then J_ROTATIONS
    else if selected == Z_BLOCK then Z_ROTATIONS
    else if selected == O_BLOCK then O_ROTATIONS
    else if selected == S_BLOCK then S_ROTATIONS
    else if selected == L_BLOCK then L_ROTATIONS
    else if selected == I_BLOCK then I_ROTATIONS
    else []
  }

  /** Every entry is 0 or 1. */
  ghost predicate IsBinary(r: Rotation) {
    forall i, j :: 0 <= i < |r| && 0 <= j < |r[i]| ==> r[i][j] == 0 || r[i][j] == 1
  }

  /** At least one row, at least one column, and all rows equally long. */
  ghost predicate Rectangular(r: Rotation) {
    && |r| > 0
    && |r[0]| > 0
    && forall i :: 0 <= i < |r| ==> |r[i]| == |r[0]|
  }

  ghost predicate HasShape(r: Rotation, rows: nat, cols: nat) {
    Rectangular(r) && |r| == rows && |r[0]| == cols
  }

  function Occupied(v: u8): nat {
    if v == 1 then 1 else 0
  }

  /** Number of occupied sub-cells among the first `n` of a row. */
  function RowCellsUpTo(row: seq<u8>, n: nat): nat
    requires n <= |row|
  {
    if n == 0 then 0 else RowCellsUpTo(row, n - 1) + Occupied(row[n - 1])
  }

  /** Number of occupied sub-cells among the first `n` rows. */
  function CellsUpTo(r: Rotation, n: nat): nat
    requires n <= |r|
  {
    if n == 0 then 0 else CellsUpTo(r, n - 1) + RowCellsUpTo(r[n - 1], |r[n - 1]|)
  }

  /** Number of occupied sub-cells of a rotation matrix. */
  function Cells(r: Rotation): nat {
    CellsUpTo(r, |r|)
  }

  /** A well-formed tetromino rotation: a 0/1 rectangle with four blocks. */
  ghost predicate WellFormed(r: Rotation) {
    Rectangular(r) && IsBinary(r) && Cells(r) == 4
  }

  /** The quarter turn clockwise of a rectangular matrix: row `i` of the
      result is column `i` of `r` read from the bottom up. */
  function RotateClockwise(r: Rotation): (t: Rotation)
    requires Rectangular(r)
    ensures HasShape(t, |r[0]|, |r|)
    ensures forall i, j :: 0 <= i < |r[0]| && 0 <= j < |r| ==> t[i][j] == r[|r| - 1 - j][i]
  {
    seq(|r[0]|, i requires 0 <= i < |r[0]| => seq(|r|, j requires 0 <= j < |r| => r[|r| - 1 - j][i]))
  }

  /** Moves every block one column to the right inside the same box: the
      last column falls off and an empty column enters on the left. */
  function ShiftRight(r: Rotation): (t: Rotation)
    requires Rectangular(r)
    ensures HasShape(t, |r|, |r[0]|)
    ensures forall i, j :: 0 <= i < |r| && 1 <= j < |r[0]| ==> t[i][j] == r[i][j - 1]
    ensures forall i :: 0 <= i < |r| ==> t[i][0] == 0
  {
    seq(|r|, i requires 0 <= i < |r| => [0 as u8] + r[i][..|r[0]| - 1])
  }

  /** `Mino::new` with the random draw made explicit. */
  function NewMino(selected: u8): (m: Mino)
    ensures m.selectedMino == selected
    ensures m.currentRotation == 0
    ensures m.currentRotation < |m.rotations| <==> selected < MINO_TYPES
    ensures selected < MINO_TYPES ==> forall i :: 0 <= i < |m.rotations| ==> WellFormed(m.rotations[i])
  {
    CatalogWellFormed(selected);
    Mino(RotationTable(selected), selected, 0)
  }

  /** The number of distinct orientations of each type: four for the
      asymmetric T, J and L, two for Z, S and I, one for O; nothing outside
      the seven types. */
  lemma RotationCounts(selected: u8)
    ensures |RotationTable(selected)| ==
      if selected in {T_BLOCK, J_BLOCK, L_BLOCK} then 4
      else if selected in {Z_BLOCK, S_BLOCK, I_BLOCK} then 2
      else if selected == O_BLOCK then 1
      else 0
  {
  }

  /** Every rotation of every type is a 0/1 rectangle holding exactly four
      blocks. */
  lemma CatalogWellFormed(selected: u8)
    ensures forall i :: 0 <= i < |RotationTable(selected)| ==> WellFormed(RotationTable(selected)[i])
  {
    if selected == T_BLOCK {
      TRotationsWellFormed();
    } else if selected == J_BLOCK {
      JRotationsWellFormed();
    } else if selected == Z_BLOCK {
      ZRotationsWellFormed();
    } else if selected == O_BLOCK {
      ORotationsWellFormed();
    } else if selected == S_BLOCK {
      SRotationsWellFormed();
    } else if selected == L_BLOCK {
      LRotationsWellFormed();
    } else if selected == I_BLOCK {
      IRotationsWellFormed();
    }
  }

  lemma TRotationsWellFormed()
    ensures forall i :: 0 <= i < |T_ROTATIONS| ==> WellFormed(T_ROTATIONS[i])
  {
    WellFormedByRows(T_ROTATIONS[0]);
    WellFormedByRows(T_ROTATIONS[1]);
    WellFormedByRows(T_ROTATIONS[2]);
    WellFormedByRows(T_ROTATIONS[3]);
  }

  lemma JRotationsWellFormed()
    ensures forall i :: 0 <= i < |J_ROTATIONS| ==> WellFormed(J_ROTATIONS[i])
  {
    WellFormedByRows(J_ROTATIONS[0]);
    WellFormedByRows(J_ROTATIONS[1]);
    WellFormedByRows(J_ROTATIONS[2]);
    WellFormedByRows(J_ROTATIONS[3]);
  }

  lemma ZRotationsWellFormed()
    ensures forall i :: 0 <= i < |Z_ROTATIONS| ==> WellFormed(Z_ROTATIONS[i])
  {
    WellFormedByRows(Z_ROTATIONS[0]);
    WellFormedByRows(Z_ROTATIONS[1]);
  }

  lemma ORotationsWellFormed()
    ensures forall i :: 0 <= i < |O_ROTATIONS| ==> WellFormed(O_ROTATIONS[i])
  {
    WellFormedByRows(O_ROTATIONS[0]);
  }

  lemma SRotationsWellFormed()
    ensures forall i :: 0 <= i < |S_ROTATIONS| ==> WellFormed(S_ROTATIONS[i])
  {
    WellFormedByRows(S_ROTATIONS[0]);
    WellFormedByRows(S_ROTATIONS[1]);
  }

  lemma LRotationsWellFormed()
    ensures forall i :: 0 <= i < |L_ROTATIONS| ==> WellFormed(L_ROTATIONS[i])
  {
    WellFormedByRows(L_ROTATIONS[0]);
    WellFormedByRows(L_ROTATIONS[1]);
    WellFormedByRows(L_ROTATIONS[2]);
    WellFormedByRows(L_ROTATIONS[3]);
  }

  lemma IRotationsWellFormed()
    ensures forall i :: 0 <= i < |I_ROTATIONS| ==> WellFormed(I_ROTATIONS[i])
  {
    WellFormedByRows(I_ROTATIONS[0]);
    WellFormedByRows(I_ROTATIONS[1]);
  }

  /** A small 0/1 rectangle is well formed once its rows add up to four. */
  lemma WellFormedByRows(r: Rotation)
    requires |r| <= 4 && Rectangular(r) && IsBinary(r)
    requires forall k :: 0 <= k < |r| ==> |r[k]| <= 4
    requires
      (if |r| > 0 then RowSum(r[0]) else 0) +
      (if |r| > 1 then RowSum(r[1]) else 0) +
      (if |r| > 2 then RowSum(r[2]) else 0) +
      (if |r| > 3 then RowSum(r[3]) else 0) == 4
    ensures WellFormed(r)
  {
    forall k | 0 <= k < |r|
      ensures RowCellsUpTo(r[k], |r[k]|) == RowSum(r[k])
    {
      ShortRowCells(r[k]);
    }
    ShortMatrixCells(r);
  }

  /** The occupied sub-cells of a row of at most four, added up directly. */
  function RowSum(row: seq<u8>): nat
    requires |row| <= 4
  {
    (if |row| > 0 then Occupied(row[0]) else 0) +
    (if |row| > 1 then Occupied(row[1]) else 0) +
    (if |row| > 2 then Occupied(row[2]) else 0) +
    (if |row| > 3 then Occupied(row[3]) else 0)
  }

  lemma ShortRowCells(row: seq<u8>)
    requires |row| <= 4
    ensures RowCellsUpTo(row, |row|) == RowSum(row)
  {
    if |row| > 0 { assert RowCellsUpTo(row, 1) == Occupied(row[0]); }
    if |row| > 1 { assert RowCellsUpTo(row, 2) == Occupied(row[0]) + Occupied(row[1]); }
    if |row| > 2 { assert RowCellsUpTo(row, 3) == Occupied(row[0]) + Occupied(row[1]) + Occupied(row[2]); }
  }

  lemma ShortMatrixCells(r: Rotation)
    requires |r| <= 4
    ensures Cells(r) ==
      (if |r| > 0 then RowCellsUpTo(r[0], |r[0]|) else 0) +
      (if |r| > 1 then RowCellsUpTo(r[1], |r[1]|) else 0) +
      (if |r| > 2 then RowCellsUpTo(r[2], |r[2]|) else 0) +
      (if |r| > 3 then RowCellsUpTo(r[3], |r[3]|) else 0)
  {
    if |r| > 0 { assert CellsUpTo(r, 1) == RowCellsUpTo(r[0], |r[0]|); }
    if |r| > 1 { assert CellsUpTo(r, 2) == CellsUpTo(r, 1) + RowCellsUpTo(r[1], |r[1]|); }
    if |r| > 2 { assert CellsUpTo(r, 3) == CellsUpTo(r, 2) + RowCellsUpTo(r[2], |r[2]|); }
  }

  /** Bounding boxes: 3×3 for T, J, Z, S and L, 2×2 for O, and for I one
      1×4 and one 4×1 box, so I alone is not square. */
  lemma CatalogShapes(selected: u8)
    ensures selected in {T_BLOCK, J_BLOCK, Z_BLOCK, S_BLOCK, L_BLOCK} ==>
      forall i :: 0 <= i < |RotationTable(selected)| ==> HasShape(RotationTable(selected)[i], 3, 3)
    ensures selected == O_BLOCK ==> HasShape(RotationTable(selected)[0], 2, 2)
    ensures selected == I_BLOCK ==>
      HasShape(RotationTable(selected)[0], 1, 4) && HasShape(RotationTable(selected)[1], 4, 1)
  {
  }

  /** The orientations of one type are pairwise different matrices. */
  lemma RotationsDistinct(selected: u8)
    ensures forall i, j :: 0 <= i < j < |RotationTable(selected)| ==>
      RotationTable(selected)[i] != RotationTable(selected)[j]
  {
  }

  /** The quarter turn of a 3×3 box written out entry by entry. */
  lemma TurnSquare3(r: Rotation)
    requires HasShape(r, 3, 3)
    ensures RotateClockwise(r) ==
      [[r[2][0], r[1][0], r[0][0]],
       [r[2][1], r[1][1], r[0][1]],
       [r[2][2], r[1][2], r[0][2]]]
  {
    var t := RotateClockwise(r);
    assert t[0] == [r[2][0], r[1][0], r[0][0]];
    assert t[1] == [r[2][1], r[1][1], r[0][1]];
    assert t[2] == [r[2][2], r[1][2], r[0][2]];
  }

  lemma TurnSquare2(r: Rotation)
    requires HasShape(r, 2, 2)
    ensures RotateClockwise(r) == [[r[1][0], r[0][0]], [r[1][1], r[0][1]]]
  {
    var t := RotateClockwise(r);
    assert t[0] == [r[1][0], r[0][0]];
    assert t[1] == [r[1][1], r[0][1]];
  }

  lemma TurnBar(r: Rotation)
    requires HasShape(r, 1, 4) || HasShape(r, 4, 1)
    ensures HasShape(r, 1, 4) ==> RotateClockwise(r) == [[r[0][0]], [r[0][1]], [r[0][2]], [r[0][3]]]
    ensures HasShape(r, 4, 1) ==> RotateClockwise(r) == [[r[3][0], r[2][0], r[1][0], r[0][0]]]
  {
    var t := RotateClockwise(r);
    if HasShape(r, 1, 4) {
      assert t[0] == [r[0][0]] && t[1] == [r[0][1]] && t[2] == [r[0][2]] && t[3] == [r[0][3]];
    } else {
      assert t[0] == [r[3][0], r[2][0], r[1][0], r[0][0]];
    }
  }

  lemma ShiftSquare3(r: Rotation)
    requires HasShape(r, 3, 3)
    ensures ShiftRight(r) == [[0, r[0][0], r[0][1]], [0, r[1][0], r[1][1]], [0, r[2][0], r[2][1]]]
  {
    var t := ShiftRight(r);
    assert t[0] == [0, r[0][0], r[0][1]];
    assert t[1] == [0, r[1][0], r[1][1]];
    assert t[2] == [0, r[2][0], r[2][1]];
  }

  /** For T, J, L, O and I the list is a true rotation cycle: each entry is
      the clockwise quarter turn of the one before it, and the last turns
      back into the first. */
  lemma RotationCycle(selected: u8, i: nat)
    requires selected in {T_BLOCK, J_BLOCK, L_BLOCK, O_BLOCK, I_BLOCK}
    requires i < |RotationTable(selected)|
    ensures var rs := RotationTable(selected);
      rs[(i + 1) % |rs|] == RotateClockwise(rs[i])
  {
    var rs := RotationTable(selected);
    if selected == O_BLOCK {
      TurnSquare2(rs[i]);
    } else if selected == I_BLOCK {
      TurnBar(rs[i]);
    } else {
      TurnSquare3(rs[i]);
    }
  }

  /** Z and S keep their pivot column instead: their second orientation is
      the quarter turn of the first moved one column right, while turning
      the second one gives the first back exactly. */
  lemma ZigZagCycle(selected: u8)
    requires selected in {Z_BLOCK, S_BLOCK}
    ensures var rs := RotationTable(selected);
      && rs[1] == ShiftRight(RotateClockwise(rs[0]))
      && rs[0] == RotateClockwise(rs[1])
      && rs[1] != RotateClockwise(rs[0])
  {
    var rs := RotationTable(selected);
    TurnSquare3(rs[0]);
    TurnSquare3(rs[1]);
    ShiftSquare3(RotateClockwise(rs[0]));
  }

  /** A draw from `0..MINO_TYPES`, as `Mino::new` makes it, always yields a
      piece whose starting rotation indexes a well-formed matrix, so the
      fallthrough arm of the type match is never taken. */
  lemma DrawnMinoIsUsable(selected: u8)
    requires selected < MINO_TYPES
    ensures var m := NewMino(selected);
      |m.rotations| >= 1 && WellFormed(m.rotations[m.currentRotation])
  {
  }
}
