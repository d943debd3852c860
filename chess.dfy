/** Values shared by the whole model: colours, piece kinds, squares, and the
    value view of a position. A position is indexed the way the board's grid
    is, `p[rank][file]`, while a square is a `(file, rank)` pair, as in the
    board's tuples. */
module Chess {

  datatype Option<T> = None | Some(value: T)

  datatype Color = White | Black {
    /** Color.opposite() */
    function Opposite(): (c: Color)
      ensures c != this
    {
      if this == White then Black else White
    }
  }

  datatype Kind = King | Queen | Rook | Bishop | Knight | Pawn

  /** What the engine observes of a piece object: its colour, its kind and
      its has_moved flag (the position it occupies is the square it is on). */
  datatype PieceView = PieceView(color: Color, kind: Kind, hasMoved: bool)

  type Cell = Option<PieceView>

  /** (file, rank) */
  type Square = (int, int)

  /** p[rank][file] */
  type Position = seq<seq<Cell>>

  predicate OnBoard(s: Square) {
    0 <= s.0 < 8 && 0 <= s.1 < 8
  }

  predicate Shaped(p: Position) {
    |p| == 8 && forall r :: 0 <= r < 8 ==> |p[r]| == 8
  }

  function EmptyRow(): (row: seq<Cell>)
    ensures |row| == 8 && forall f :: 0 <= f < 8 ==> row[f] == None
  {
    [None, None, None, None, None, None, None, None]
  }

  /** The grid right after the tiles are rebuilt: no occupant anywhere. */
  function Empty(): (p: Position)
    ensures Shaped(p)
    ensures forall r :: 0 <= r < 8 ==> p[r] == EmptyRow()
  {
    var e := EmptyRow();
    [e, e, e, e, e, e, e, e]
  }

  function At(p: Position, s: Square): Cell
    requires Shaped(p) && OnBoard(s)
  {
    p[s.1][s.0]
  }

  /** No square of p is occupied. */
  ghost predicate Blank(p: Position) {
    Shaped(p) && forall s :: OnBoard(s) ==> At(p, s) == None
  }

  lemma BlankIsEmpty(p: Position)
    requires Blank(p)
    ensures p == Empty()
  {
    forall r | 0 <= r < 8
      ensures p[r] == EmptyRow()
    {
      forall f | 0 <= f < 8
        ensures p[r][f] == None
      {
        assert At(p, (f, r)) == None;
      }
    }
  }

  /** The position after one tile's occupant is overwritten. */
  function Put(p: Position, s: Square, c: Cell): (q: Position)
    requires Shaped(p) && OnBoard(s)
    ensures Shaped(q) && At(q, s) == c
    ensures forall t :: OnBoard(t) && t != s ==> At(q, t) == At(p, t)
  {
    p[s.1 := p[s.1][s.0 := c]]
  }

  /** piece_value of each kind (the king is unvalued). */
  function Value(k: Kind): nat {
    match k
    case King => 0
    case Queen => 9
    case Rook => 5
    case Bishop => 3
    case Knight => 3
    case Pawn => 1
  }

  /** The value a cell contributes to side c's total. */
  function CellValue(cell: Cell, c: Color): nat {
    match cell
    case None => 0
    case Some(v) => if v.color == c then Value(v.kind) else 0
  }

  /** The value a cell contributes to the material differential. */
  function Signed(cell: Cell): int {
    CellValue(cell, White) - CellValue(cell, Black)
  }

  /** Total value of side c's pieces in a row, accumulated file by file. */
  function RowTotal(row: seq<Cell>, c: Color): nat {
    if row == [] then 0 else RowTotal(row[..|row| - 1], c) + CellValue(row[|row| - 1], c)
  }

  /** Total value of side c's pieces in the given ranks, rank by rank. */
  function SideTotal(rows: Position, c: Color): nat {
    if rows == [] then 0 else SideTotal(rows[..|rows| - 1], c) + RowTotal(rows[|rows| - 1], c)
  }

  /** White material minus Black material. */
  function Material(p: Position): int {
    SideTotal(p, White) - SideTotal(p, Black)
  }

  lemma {:induction false} RowTotalUpdate(row: seq<Cell>, f: int, x: Cell, c: Color)
    requires 0 <= f < |row|
    ensures RowTotal(row[f := x], c) == RowTotal(row, c) - CellValue(row[f], c) + CellValue(x, c)
    decreases |row|
  {
    var n := |row| - 1;
    if f == n {
      assert row[f := x][..n] == row[..n];
    } else {
      RowTotalUpdate(row[..n], f, x, c);
      assert row[f := x][..n] == row[..n][f := x];
    }
  }

  lemma {:induction false} SideTotalUpdate(rows: Position, r: int, row: seq<Cell>, c: Color)
    requires 0 <= r < |rows|
    ensures SideTotal(rows[r := row], c) == SideTotal(rows, c) - RowTotal(rows[r], c) + RowTotal(row, c)
    decreases |rows|
  {
    var n := |rows| - 1;
    if r == n {
      assert rows[r := row][..n] == rows[..n];
    } else {
      SideTotalUpdate(rows[..n], r, row, c);
      assert rows[r := row][..n] == rows[..n][r := row];
    }
  }

  /** Overwriting one square changes the material differential by exactly the
      signed value that leaves the square and the one that arrives on it. */
  lemma MaterialPut(p: Position, s: Square, x: Cell)
    requires Shaped(p) && OnBoard(s)
    ensures Material(Put(p, s, x)) == Material(p) - Signed(At(p, s)) + Signed(x)
  {
    var row := p[s.1][s.0 := x];
    RowTotalUpdate(p[s.1], s.0, x, White);
    RowTotalUpdate(p[s.1], s.0, x, Black);
    SideTotalUpdate(p, s.1, row, White);
    SideTotalUpdate(p, s.1, row, Black);
  }

  /** A rook, queen or pawn: the pieces that rule out the draw by
      insufficient material. */
  predicate Heavy(cell: Cell) {
    cell.Some? && (cell.value.kind == Rook || cell.value.kind == Queen || cell.value.kind == Pawn)
  }

  predicate HasHeavy(p: Position)
    requires Shaped(p)
  {
    exists r, f :: 0 <= r < 8 && 0 <= f < 8 && Heavy(p[r][f])
  }

  function RowCount(row: seq<Cell>): nat {
    if row == [] then 0 else RowCount(row[..|row| - 1]) + (if row[|row| - 1].Some? then 1 else 0)
  }

  /** Number of occupied squares in the given ranks. */
  function PieceCount(rows: Position): nat {
    if rows == [] then 0 else PieceCount(rows[..|rows| - 1]) + RowCount(rows[|rows| - 1])
  }
}
