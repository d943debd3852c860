/** The Board: an 8x8 grid of tiles indexed grid[rank, file], the selected
    piece, the re-entrancy flag of the check test, the en passant target,
    the move history with its cursor, the material differential and the
    terminal flags. The ghost field Pos is the value view of the grid that
    the contracts speak about. */
module ChessBoard {
  import opened Chess
  import opened Fen
  import opened Rules
  import opened Tiles

  /** One move_history record: the piece moved, its squares, what it
      captured, and the placement written after the move. */
  datatype Entry = Entry(piece: Piece?, from: Option<Square>, to: Option<Square>, captured: Piece?, fen: string)

  /** The inner loop of get_all_moves: appends each move not already
      listed. */
  method AddNew(allMoves: seq<Square>, curr: seq<Square>) returns (r: seq<Square>)
    requires NoDup(allMoves)
    ensures NoDup(r) && |allMoves| <= |r| && r[..|allMoves|] == allMoves
    ensures forall m :: m in r <==> m in allMoves || m in curr
  {
    r := allMoves;
    var i := 0;
    while i < |curr|
      invariant 0 <= i <= |curr| && |allMoves| <= |r|
      invariant NoDup(r) && r[..|allMoves|] == allMoves
      invariant forall m :: m in r <==> m in allMoves || m in curr[..i]
    {
      if curr[i] !in r {
        r := r + [curr[i]];
      }
      assert curr[..i + 1] == curr[..i] + [curr[i]];
      i := i + 1;
    }
    assert curr[..|curr|] == curr;
  }

  /** check_if_danger(square, enemyMoves, visited): the answer and the
      visited set afterwards (the caller's set when one is passed, a new one
      otherwise). A square seen before is answered false; otherwise it is
      recorded and is in danger when an enemy move reaches it. */
  function CheckIfDanger(square: Square, enemyMoves: seq<Square>, visited: Option<set<Square>>): (r: (bool, set<Square>))
    ensures square in r.1
    ensures r.1 == (if visited.Some? then visited.value else {}) + {square}
    ensures r.0 ==> square in enemyMoves
    ensures visited.Some? && square in visited.value ==> !r.0
    ensures visited.None? || square !in visited.value ==> (r.0 <==> square in enemyMoves)
  {
    var seen := if visited.None? then {} else visited.value;
    if square in seen then (false, seen)
    else (square in enemyMoves, seen + {square})
  }

  /** Asking again with the visited set of a first call is answered false
      and changes the set no more. */
  lemma DangerOnce(square: Square, enemyMoves: seq<Square>, visited: Option<set<Square>>)
    ensures var v := CheckIfDanger(square, enemyMoves, visited).1;
      CheckIfDanger(square, enemyMoves, Some(v)) == (false, v)
  {
  }

  /** One file of board_state()'s rank loop keeps the rank string written
      so far, followed by the encoding of the rest, equal to the whole
      rank's encoding. */
  lemma RankStep(cells: seq<Cell>, file: int, run: nat, row: string, row': string, run': nat)
    requires |cells| == 8 && 0 <= file < 8 && run <= file
    requires row + EncodeRun(cells[file..], run) == EncodeRow(cells)
    requires cells[file].None? ==>
      run' == run + 1 && row' == (if file == 7 then row + [DigitChar(run + 1)] else row)
    requires cells[file].Some? ==>
      run' == 0 && row' == (if run > 0 then row + [DigitChar(run)] + [Letter(cells[file].value)] else row + [Letter(cells[file].value)])
    ensures file < 7 ==> row' + EncodeRun(cells[file + 1..], run') == EncodeRow(cells)
    ensures file == 7 ==> row' == EncodeRow(cells)
  {
    var tail := cells[file..];
    EncodeRunStep(tail, run);
    assert tail[1..] == cells[file + 1..];
    if file == 7 {
      assert EncodeRun(cells[file + 1..], 0) == [];
    }
  }

  class Board {
    var grid: array2<Tile?>
    var selected: Piece?
    var checkingForChecks: bool
    var enPassantTarget: Option<Square>
    var history: seq<Entry>
    var currentIndex: int
    var materialDifferential: int
    var checkmate: bool
    var stalemate: bool
    var mateColor: Option<Color>
    var resigned: bool
    /** piece.get_moves(board) for every piece of the board. */
    const gen: MoveGen
    /** What every tile holds, Pos[rank][file]. */
    ghost var Pos: Position
    /** Every tile and every piece the board has made. */
    ghost var Tiles: set<Tile>
    ghost var Pieces: set<Piece>

    /** The tile on (file f, rank r) knows its coordinates and shade, and
        its occupant, if any, knows it stands there and is recorded in Pos. */
    ghost predicate TileOk(r: int, f: int)
      requires 0 <= r < 8 && 0 <= f < 8 && grid.Length0 == 8 && grid.Length1 == 8 && Shaped(Pos)
      reads this`grid, this`Pos, this`Tiles, this`Pieces, grid, Tiles`pieceHere, Pieces`pos, Pieces`hasMoved
    {
      var t := grid[r, f];
      t != null && t in Tiles && t.file == f && t.rank == r && t.isLight == ((f + r) % 2 == 1) &&
      (t.pieceHere == null ==> Pos[r][f] == None) &&
      (t.pieceHere != null ==>
        t.pieceHere in Pieces && t.pieceHere.pos == (f, r) && Pos[r][f] == Some(t.pieceHere.View()))
    }

    ghost predicate GridValid()
      reads this`grid, this`Pos, this`Tiles, this`Pieces, grid, Tiles`pieceHere, Pieces`pos, Pieces`hasMoved
    {
      grid.Length0 == 8 && grid.Length1 == 8 && Shaped(Pos) && GenOnBoard(gen) &&
      forall r, f :: 0 <= r < 8 && 0 <= f < 8 ==> TileOk(r, f)
    }

    /** Between operations: the grid is consistent, no check test is in
        flight, the cursor is inside the history, and every snapshot in the
        history can be read back. */
    ghost predicate Valid()
      reads this, grid, Tiles, Pieces
    {
      GridValid() && !checkingForChecks && 0 <= currentIndex < |history| &&
      forall i :: 0 <= i < |history| ==> Decode(history[i].fen).Some?
    }

    /** The piece stands on the tile of the square it believes it is on. */
    ghost predicate Holds(p: Piece)
      requires GridValid()
      reads this`grid, this`Pos, this`Tiles, this`Pieces, grid, Tiles`pieceHere, Pieces`pos, Pieces`hasMoved, p
    {
      OnBoard(p.pos) && TileOk(p.pos.1, p.pos.0) && grid[p.pos.1, p.pos.0].pieceHere == p
    }

    /** The piece object on square s. */
    ghost function Occupant(s: Square): Piece?
      requires GridValid() && OnBoard(s)
      reads this`grid, this`Pos, this`Tiles, this`Pieces, grid, Tiles`pieceHere, Pieces`pos, Pieces`hasMoved
    {
      assert TileOk(s.1, s.0);
      grid[s.1, s.0].pieceHere
    }

    /** is_curr_pos(): the board shows the newest position, that is, no
        entry of the history comes after the one shown. */
    predicate IsCurrPos()
      reads this
      ensures 0 <= currentIndex < |history| ==> (IsCurrPos() <==> history[currentIndex + 1..] == [])
    {
      currentIndex == |history| - 1
    }

    /** A query may move pieces while it works but puts every occupant and
        every piece's square back. */
    twostate predicate Restored()
      reads this`Pos, this`checkingForChecks, this`Tiles, this`Pieces, Tiles, Pieces
    {
      Pos == old(Pos) && checkingForChecks == old(checkingForChecks) &&
      Tiles == old(Tiles) && Pieces == old(Pieces) &&
      unchanged(old(Tiles)) && unchanged(old(Pieces))
    }

    /** The value view of the grid, read tile by tile (what the piece move
        generators are given). */
    method Snapshot() returns (p: Position)
      requires GridValid()
      ensures p == Pos
    {
      p := [];
      var rank := 0;
      while rank < 8
        invariant 0 <= rank <= 8 && p == Pos[..rank]
      {
        var row: seq<Cell> := [];
        var file := 0;
        while file < 8
          invariant 0 <= file <= 8 && row == Pos[rank][..file]
        {
          assert TileOk(rank, file);
          var piece := grid[rank, file].pieceHere;
          row := row + [if piece == null then None else Some(piece.View())];
          file := file + 1;
        }
        assert row == Pos[rank];
        assert Pos[..rank + 1] == Pos[..rank] + [Pos[rank]];
        p := p + [row];
        rank := rank + 1;
      }
    }

    /** find_king(c): the first king of colour c in rank-by-rank,
        file-by-file order. */
    method FindKing(c: Color) returns (r: Option<Square>)
      requires GridValid()
      ensures r == KingSquare(Pos, c)
    {
      var rank := 0;
      while rank < 8
        invariant 0 <= rank <= 8
        invariant forall s :: OnBoard(s) && Index(s) < rank * 8 ==> !IsKingOf(At(Pos, s), c)
      {
        var file := 0;
        while file < 8
          invariant 0 <= file <= 8
          invariant forall s :: OnBoard(s) && Index(s) < rank * 8 + file ==> !IsKingOf(At(Pos, s), c)
        {
          assert TileOk(rank, file);
          var piece := grid[rank, file].pieceHere;
          if piece != null && piece.color == c && piece.kind == King {
            KingFirst(Pos, c, (file, rank));
            return Some((file, rank));
          }
          file := file + 1;
        }
        rank := rank + 1;
      }
      return None;
    }

    /** calculate_material(): White's total piece value minus Black's. */
    method CalculateMaterial() returns (d: int)
      requires GridValid()
      ensures d == Material(Pos)
    {
      var white: int := 0;
      var black: int := 0;
      var rank := 0;
      while rank < 8
        invariant 0 <= rank <= 8
        invariant white == SideTotal(Pos[..rank], White) && black == SideTotal(Pos[..rank], Black)
      {
        var file := 0;
        while file < 8
          invariant 0 <= file <= 8
          invariant white == SideTotal(Pos[..rank], White) + RowTotal(Pos[rank][..file], White)
          invariant black == SideTotal(Pos[..rank], Black) + RowTotal(Pos[rank][..file], Black)
        {
          assert TileOk(rank, file);
          var piece := grid[rank, file].pieceHere;
          if piece != null {
            var value := Value(piece.kind);
            if piece.color == White {
              white := white + value;
            } else {
              black := black + value;
            }
          }
          assert Pos[rank][..file + 1][..file] == Pos[rank][..file];
          file := file + 1;
        }
        assert Pos[rank][..8] == Pos[rank];
        assert Pos[..rank + 1][..rank] == Pos[..rank];
        rank := rank + 1;
      }
      assert Pos[..8] == Pos;
      d := white - black;
    }

    /** check_draw(): 0 as soon as a rook, queen or pawn is met; otherwise 1
        exactly when at most four pieces are left. */
    method CheckDraw() returns (r: int)
      requires GridValid()
      ensures r == (if HasHeavy(Pos) then 0 else if PieceCount(Pos) <= 4 then 1 else 0)
    {
      var count := 0;
      var rank := 0;
      while rank < 8
        invariant 0 <= rank <= 8 && count == PieceCount(Pos[..rank])
        invariant forall rr, ff :: 0 <= rr < rank && 0 <= ff < 8 ==> !Heavy(Pos[rr][ff])
      {
        var file := 0;
        while file < 8
          invariant 0 <= file <= 8 && count == PieceCount(Pos[..rank]) + RowCount(Pos[rank][..file])
          invariant forall rr, ff :: 0 <= rr < rank && 0 <= ff < 8 ==> !Heavy(Pos[rr][ff])
          invariant forall ff :: 0 <= ff < file ==> !Heavy(Pos[rank][ff])
        {
          assert TileOk(rank, file);
          var piece := grid[rank, file].pieceHere;
          if piece != null {
            count := count + 1;
            if piece.kind == Rook || piece.kind == Queen || piece.kind == Pawn {
              assert Heavy(Pos[rank][file]);
              return 0;
            }
          }
          assert Pos[rank][..file + 1][..file] == Pos[rank][..file];
          file := file + 1;
        }
        assert Pos[rank][..8] == Pos[rank];
        assert Pos[..rank + 1][..rank] == Pos[..rank];
        rank := rank + 1;
      }
      assert Pos[..8] == Pos;
      if count <= 4 {
        return 1;
      }
      return 0;
    }

    /** grid[rank][file].piece_here, read for the value view of the square. */
    method PieceAt(rank: int, file: int) returns (piece: Piece?)
      requires GridValid() && 0 <= rank < 8 && 0 <= file < 8
      ensures piece == null ==> Pos[rank][file] == None
      ensures piece != null ==> Pos[rank][file] == Some(piece.View())
    {
      assert TileOk(rank, file);
      piece := grid[rank, file].pieceHere;
    }

    /** One rank of board_state(): a run of empty files is written as its
        length just before the next piece or at the end of the rank. */
    method RankString(rank: int) returns (row: string)
      requires GridValid() && 0 <= rank < 8
      ensures row == EncodeRow(Pos[rank])
    {
      ghost var cells := Pos[rank];
      row := "";
      var empty := 0;
      var file := 0;
      while file < 8
        invariant 0 <= file <= 8 && 0 <= empty <= file
        invariant file < 8 ==> row + EncodeRun(cells[file..], empty) == EncodeRow(cells)
        invariant file == 8 ==> row == EncodeRow(cells)
      {
        var piece := PieceAt(rank, file);
        ghost var before, run := row, empty;
        if piece == null {
          empty := empty + 1;
          if file == 7 {
            row := row + [DigitChar(empty)];
          }
        } else {
          var symbol := Letter(piece.View());
          if empty > 0 {
            row := row + [DigitChar(empty)];
            empty := 0;
            row := row + [symbol];
          } else {
            row := row + [symbol];
          }
        }
        RankStep(cells, file, run, before, row, empty);
        file := file + 1;
      }
    }

    /** board_state() without an active colour: each rank from 8 down to 1,
        runs of empty files as a digit, then the ranks joined with '/'. */
    method BoardState() returns (fen: string)
      requires GridValid()
      ensures fen == Encode(Pos)
    {
      ghost var rows := Rows(Pos);
      fen := "";
      var rank := 7;
      while rank >= 0
        invariant -1 <= rank <= 7
        invariant rank == 7 ==> fen == ""
        invariant rank < 7 ==> fen == Join(rows[..7 - rank]) + "/"
      {
        var row := RankString(rank);
        assert row == rows[7 - rank];
        if rank < 7 {
          JoinSnoc(rows[..7 - rank], row);
        }
        assert rows[..8 - rank] == rows[..7 - rank] + [row];
        fen := fen + row + "/";
        rank := rank - 1;
      }
      assert rows[..8] == rows;
      fen := fen[..|fen| - 1];
    }

    /** check_for_checks(c). With the flag already up it answers false at
        once and leaves the flag as it is; otherwise it raises the flag, looks
        for c's king among the other side's moves and lowers the flag on
        the way out. */
    method CheckForChecks(c: Color) returns (r: bool)
      requires GridValid()
      modifies this`checkingForChecks, this`Pos, Tiles`pieceHere, Pieces`pos
      ensures GridValid() && Restored()
      ensures r == (!checkingForChecks && InCheck(gen, Pos, c, enPassantTarget))
      decreases if checkingForChecks then 0 else 1, 0
    {
      if checkingForChecks {
        return false;
      }
      checkingForChecks := true;
      var king := FindKing(c);
      if king.None? {
        checkingForChecks := false;
        return false;
      }
      var enemy := GetAllEnemyMoves(c);
      r := king.value in enemy;
      SideMoveInFlight(gen, Pos, enPassantTarget, c, false, king.value);
      checkingForChecks := false;
    }

    /** check_if_move_into_check(piece, newPos): moves the piece on the grid,
        asks whether its king is in check, and puts the piece and whatever
        it displaced back. */
    method CheckIfMoveIntoCheck(piece: Piece, newPos: Square) returns (check: bool)
      requires GridValid() && Holds(piece) && OnBoard(newPos)
      modifies this`checkingForChecks, this`Pos, Tiles`pieceHere, Pieces`pos
      ensures GridValid() && Restored() && Holds(piece)
      ensures check == (!checkingForChecks && InCheck(gen, Simulate(Pos, piece.pos, newPos), piece.color, enPassantTarget))
      decreases if checkingForChecks then 0 else 1, 1
    {
      var currentPos := piece.pos;
      var fromTile := grid[currentPos.1, currentPos.0];
      assert TileOk(newPos.1, newPos.0);
      var nextTile := grid[newPos.1, newPos.0];
      var captured := nextTile.pieceHere;
      ghost var before := Pos;

      fromTile.pieceHere := null;
      nextTile.pieceHere := piece;
      piece.pos := newPos;
      Pos := Simulate(before, currentPos, newPos);
      forall r, f | 0 <= r < 8 && 0 <= f < 8
        ensures TileOk(r, f)
      {
        assert old(TileOk(r, f));
      }

      check := CheckForChecks(piece.color);

      fromTile.pieceHere := piece;
      nextTile.pieceHere := captured;
      piece.pos := currentPos;
      Pos := before;
      assert Restored();
      KeepsGrid();
    }

    /** An operation that leaves the tiles, pieces and value view as they were
        leaves the grid as consistent as it found it. */
    twostate lemma KeepsGrid()
      requires old(GridValid()) && Restored() && grid == old(grid) && unchanged(grid)
      ensures GridValid()
    {
    }

    /** get_all_legal(piece): the generator's moves for the piece, in order,
        without those check_if_move_into_check rejects. */
    method GetAllLegal(piece: Piece) returns (legal: seq<Square>)
      requires GridValid() && Holds(piece)
      modifies this`checkingForChecks, this`Pos, Tiles`pieceHere, Pieces`pos
      ensures GridValid() && Restored() && Holds(piece)
      ensures legal == Legal(gen, Pos, piece.pos, enPassantTarget, checkingForChecks)
      decreases if checkingForChecks then 0 else 1, 2
    {
      var p := Snapshot();
      var checkMoves := gen(p, piece.pos, enPassantTarget);
      ghost var from := piece.pos;
      ghost var flag := checkingForChecks;
      legal := [];
      var i := 0;
      while i < |checkMoves|
        invariant 0 <= i <= |checkMoves|
        invariant GridValid() && Restored() && Holds(piece) && piece.pos == from && checkingForChecks == flag
        invariant legal == Filter(gen, p, from, enPassantTarget, flag, checkMoves[..i])
      {
        var check := CheckIfMoveIntoCheck(piece, checkMoves[i]);
        FilterStep(gen, p, from, enPassantTarget, flag, checkMoves, i);
        if !check {
          legal := legal + [checkMoves[i]];
        }
        i := i + 1;
      }
      assert checkMoves[..|checkMoves|] == checkMoves;
    }

    /** One square of the scan in get_all_moves(): the legal moves of a
        piece of the chosen side are appended, those not listed yet. */
    method ScanSquare(c: Color, own: bool, s: Square, before: seq<Square>) returns (allMoves: seq<Square>)
      requires GridValid() && OnBoard(s) && NoDup(before)
      requires forall m :: m in before <==> LegalBefore(gen, Pos, enPassantTarget, c, own, checkingForChecks, Index(s), m)
      modifies this`checkingForChecks, this`Pos, Tiles`pieceHere, Pieces`pos
      ensures GridValid() && Restored() && NoDup(allMoves)
      ensures forall m :: m in allMoves <==> LegalBefore(gen, Pos, enPassantTarget, c, own, checkingForChecks, Index(s) + 1, m)
      decreases if checkingForChecks then 0 else 1, 3
    {
      assert TileOk(s.1, s.0);
      allMoves := before;
      var piece := grid[s.1, s.0].pieceHere;
      if piece != null && (piece.color == c) == own {
        var curr := GetAllLegal(piece);
        allMoves := AddNew(allMoves, curr);
      }
      CollectStep(gen, Pos, enPassantTarget, c, own, checkingForChecks, s, before, allMoves);
    }

    /** The scan shared by get_all_moves (own) and get_all_enemy_moves (not
        own): every legal move of every piece of the chosen side, each
        square once, in order of first appearance. */
    method CollectMoves(c: Color, own: bool) returns (allMoves: seq<Square>)
      requires GridValid()
      modifies this`checkingForChecks, this`Pos, Tiles`pieceHere, Pieces`pos
      ensures GridValid() && Restored() && NoDup(allMoves)
      ensures forall m :: m in allMoves <==> SideMove(gen, Pos, enPassantTarget, c, own, checkingForChecks, m)
      decreases if checkingForChecks then 0 else 1, 4
    {
      ghost var p := Pos;
      ghost var flag := checkingForChecks;
      allMoves := [];
      var rank := 0;
      while rank < 8
        invariant 0 <= rank <= 8
        invariant GridValid() && Restored() && Pos == p && checkingForChecks == flag && NoDup(allMoves)
        invariant forall m :: m in allMoves <==> LegalBefore(gen, p, enPassantTarget, c, own, flag, rank * 8, m)
      {
        var file := 0;
        while file < 8
          invariant 0 <= file <= 8
          invariant GridValid() && Restored() && Pos == p && checkingForChecks == flag && NoDup(allMoves)
          invariant forall m :: m in allMoves <==> LegalBefore(gen, p, enPassantTarget, c, own, flag, rank * 8 + file, m)
        {
          allMoves := ScanSquare(c, own, (file, rank), allMoves);
          file := file + 1;
        }
        rank := rank + 1;
      }
    }

    /** get_all_moves(c): the legal moves of c's pieces, without repeats. */
    method GetAllMoves(c: Color) returns (allMoves: seq<Square>)
      requires GridValid()
      modifies this`checkingForChecks, this`Pos, Tiles`pieceHere, Pieces`pos
      ensures GridValid() && Restored() && NoDup(allMoves)
      ensures forall m :: m in allMoves <==> SideMove(gen, Pos, enPassantTarget, c, true, checkingForChecks, m)
      decreases if checkingForChecks then 0 else 1, 5
    {
      allMoves := CollectMoves(c, true);
    }

    /** get_all_enemy_moves(c): the legal moves of the other colour's
        pieces, without repeats. */
    method GetAllEnemyMoves(c: Color) returns (allMoves: seq<Square>)
      requires GridValid()
      modifies this`checkingForChecks, this`Pos, Tiles`pieceHere, Pieces`pos
      ensures GridValid() && Restored() && NoDup(allMoves)
      ensures forall m :: m in allMoves <==> SideMove(gen, Pos, enPassantTarget, c, false, checkingForChecks, m)
      decreases if checkingForChecks then 0 else 1, 5
    {
      allMoves := CollectMoves(c, false);
    }

    /** A freshly built tile for (file f, rank r): one of the board's tiles,
        with its coordinates and shade, and empty. */
    ghost predicate Fits(t: Tile?, r: int, f: int)
      reads this`Tiles, t
    {
      t != null && t in Tiles && t.file == f && t.rank == r && t.isLight == ((f + r) % 2 == 1) && t.pieceHere == null
    }

    /** A new, empty tile on every square, light where file + rank is odd;
        no piece is on the board any more. */
    method RebuildTiles()
      requires grid.Length0 == 8 && grid.Length1 == 8 && GenOnBoard(gen)
      modifies grid, this`Pos, this`Tiles, this`Pieces
      ensures GridValid() && Blank(Pos) && Pieces == {}
      ensures forall t :: t in Tiles ==> fresh(t)
    {
      Pos := Empty();
      Tiles := {};
      Pieces := {};
      var rank := 0;
      while rank < 8
        invariant 0 <= rank <= 8 && Pos == Empty() && Pieces == {}
        invariant forall t :: t in Tiles ==> fresh(t)
        invariant forall r, f :: 0 <= r < rank && 0 <= f < 8 ==> Fits(grid[r, f], r, f)
      {
        var file := 0;
        while file < 8
          invariant 0 <= file <= 8 && Pos == Empty() && Pieces == {}
          invariant forall t :: t in Tiles ==> fresh(t)
          invariant forall r, f :: 0 <= r < rank && 0 <= f < 8 ==> Fits(grid[r, f], r, f)
          invariant forall f :: 0 <= f < file ==> Fits(grid[rank, f], rank, f)
        {
          var isLight := (file + rank) % 2 == 1;
          var tile := new Tile(file, rank, isLight);
          grid[rank, file] := tile;
          Tiles := Tiles + {tile};
          file := file + 1;
        }
        rank := rank + 1;
      }
      forall r, f | 0 <= r < 8 && 0 <= f < 8
        ensures TileOk(r, f)
      {
        assert Fits(grid[r, f], r, f);
      }
    }

    /** grid[s.1][s.0].piece_here = piece, for a piece not yet on the board
        that knows its square; whatever stood there leaves the board. */
    method PlacePiece(piece: Piece, s: Square)
      requires GridValid() && OnBoard(s) && piece.pos == s && piece !in Pieces
      modifies this`Pos, this`Pieces, Tiles`pieceHere
      ensures GridValid() && Pos == Put(old(Pos), s, Some(piece.View()))
      ensures Pieces == old(Pieces) + {piece}
    {
      assert TileOk(s.1, s.0);
      grid[s.1, s.0].pieceHere := piece;
      Pieces := Pieces + {piece};
      Pos := Put(Pos, s, Some(piece.View()));
      forall r, f | 0 <= r < 8 && 0 <= f < 8
        ensures TileOk(r, f)
      {
        assert old(TileOk(r, f));
      }
    }

    /** A new piece of colour c and kind k, not yet moved, put on s. */
    method PutNew(s: Square, c: Color, k: Kind)
      requires GridValid() && OnBoard(s)
      modifies this`Pos, this`Pieces, Tiles`pieceHere
      ensures GridValid() && Pos == Put(old(Pos), s, Fresh(c, k))
    {
      var piece := new Piece(c, k, s);
      PlacePiece(piece, s);
    }

    /** The White piece of kind k on (f, 0), then the Black one on (f, 7). */
    method PutPair(f: int, k: Kind)
      requires GridValid() && 0 <= f < 8
      modifies this`Pos, this`Pieces, Tiles`pieceHere
      ensures GridValid() && Pos == PlaceBoth(old(Pos), f, k)
    {
      PutNew((f, 0), White, k);
      PutNew((f, 7), Black, k);
    }

    /** The rooks on (0, 0), (7, 0), (0, 7) and (7, 7), in that order. */
    method PutRooks()
      requires GridValid()
      modifies this`Pos, this`Pieces, Tiles`pieceHere
      ensures GridValid() && Pos == PlaceRooks(old(Pos))
    {
      PutNew((0, 0), White, Rook);
      PutNew((7, 0), White, Rook);
      PutNew((0, 7), Black, Rook);
      PutNew((7, 7), Black, Rook);
    }

    /** Minor pieces of kind k on files a and b: White's two, then Black's. */
    method PutMinors(a: int, b: int, k: Kind)
      requires GridValid() && 0 <= a < 8 && 0 <= b < 8 && a != b
      modifies this`Pos, this`Pieces, Tiles`pieceHere
      ensures GridValid() && Pos == PlaceMinor(old(Pos), a, b, k)
    {
      PutNew((a, 0), White, k);
      PutNew((b, 0), White, k);
      PutNew((a, 7), Black, k);
      PutNew((b, 7), Black, k);
    }

    /** The placing part of initialize_pieces(): pawns, kings, queens,
        rooks, knights, bishops. */
    method PlaceStartingPieces()
      requires GridValid()
      modifies this`Pos, this`Pieces, Tiles`pieceHere
      ensures GridValid() && Pos == Setup(old(Pos))
    {
      var file := 0;
      while file < 8
        invariant 0 <= file <= 8 && GridValid() && Pos == PlacePawns(old(Pos), file)
      {
        PutNew((file, 1), White, Pawn);
        PutNew((file, 6), Black, Pawn);
        file := file + 1;
      }
      ghost var pawns := Pos;
      PutPair(4, King);
      ghost var kings := Pos;
      PutPair(3, Queen);
      ghost var queens := Pos;
      PutRooks();
      ghost var rooks := Pos;
      PutMinors(1, 6, Knight);
      ghost var knights := Pos;
      PutMinors(2, 5, Bishop);
      SetupStages(old(Pos), pawns, kings, queens, rooks, knights, Pos);
    }

    /** The tail of a move and of initialize_pieces(): the placement is
        written out and appended to the history with the move that led to
        it, and the cursor moves to the new entry. */
    method Record(piece: Piece?, from: Option<Square>, to: Option<Square>, captured: Piece?)
      requires GridValid()
      modifies this`history, this`currentIndex
      ensures GridValid()
      ensures history == old(history) + [Entry(piece, from, to, captured, Encode(Pos))]
      ensures currentIndex == |history| - 1
    {
      var fen := BoardState();
      label Written:
      history := history + [Entry(piece, from, to, captured, fen)];
      currentIndex := |history| - 1;
      forall r, f | 0 <= r < 8 && 0 <= f < 8
        ensures TileOk(r, f)
      {
        assert old@Written(TileOk(r, f));
      }
    }

    /** The placing part of initialize_pieces() on the empty board that
        both of its callers give it: a new game's position. */
    method PlaceNewGame()
      requires GridValid() && Blank(Pos)
      modifies this`Pos, this`Pieces, Tiles`pieceHere
      ensures GridValid() && IsStart(Pos)
    {
      ghost var blank := Pos;
      PlaceStartingPieces();
      SetupStart(blank);
    }

    /** initialize_pieces() on an empty board: the pieces of a new game put
        in place, then the placement recorded as a new history entry that
        the cursor points to. */
    method InitializePieces()
      requires GridValid() && Blank(Pos)
      modifies this`Pos, this`Pieces, this`history, this`currentIndex, Tiles`pieceHere
      ensures GridValid() && IsStart(Pos)
      ensures history == old(history) + [Entry(null, None, None, null, Encode(Pos))]
      ensures currentIndex == |history| - 1
    {
      PlaceNewGame();
      Record(null, None, None, null);
    }

    /** __init__(): a grid of nulls and every field at its initial value,
        then a fresh tile on every square, the starting pieces and the first
        history entry. */
    constructor (gen: MoveGen)
      requires GenOnBoard(gen)
      ensures Valid() && this.gen == gen && IsStart(Pos)
      ensures history == [Entry(null, None, None, null, Encode(Pos))] && currentIndex == 0
      ensures selected == null && enPassantTarget == None && materialDifferential == 0
      ensures !checkmate && !stalemate && mateColor == None && !resigned
    {
      this.gen := gen;
      grid := new Tile?[8, 8]((r, f) => null);
      selected := null;
      checkingForChecks := false;
      enPassantTarget := None;
      history := [];
      currentIndex := -1;
      materialDifferential := 0;
      checkmate := false;
      stalemate := false;
      mateColor := None;
      resigned := false;
      Pos := Empty();
      Tiles := {};
      Pieces := {};
      new;
      RebuildTiles();
      InitializePieces();
      RoundTrip(Pos);
    }

    /** The game-state fields reset_board() puts back to their initial
        values; the history is emptied for initialize_pieces() to refill. */
    method ClearState()
      modifies this`selected, this`checkingForChecks, this`enPassantTarget, this`history, this`currentIndex
      modifies this`materialDifferential, this`checkmate, this`stalemate, this`mateColor, this`resigned
      ensures selected == null && !checkingForChecks && enPassantTarget == None && history == [] && currentIndex == -1
      ensures materialDifferential == 0 && !checkmate && !stalemate && mateColor == None && !resigned
    {
      selected := null;
      checkingForChecks := false;
      enPassantTarget := None;
      history := [];
      currentIndex := -1;
      materialDifferential := 0;
      checkmate := false;
      stalemate := false;
      mateColor := None;
      resigned := false;
    }

    /** reset_board(): fresh tiles, every field back to its initial value,
        then initialize_pieces(); the history is the one starting entry. */
    method ResetBoard()
      requires Valid()
      modifies this, grid
      ensures Valid() && IsStart(Pos) && IsCurrPos()
      ensures history == [Entry(null, None, None, null, Encode(Pos))] && currentIndex == 0
      ensures selected == null && enPassantTarget == None && materialDifferential == 0
      ensures !checkmate && !stalemate && mateColor == None && !resigned
    {
      RebuildTiles();
      ClearState();
      InitializePieces();
      RoundTrip(Pos);
    }

    /** get_piece(piece): the piece becomes the selected one. */
    method GetPiece(piece: Piece)
      modifies this`selected
      ensures selected == piece
    {
      selected := piece;
    }

    /** selected_piece.move(to) and the two tile writes of move_piece: the
        piece takes its new square and is marked as moved, it lands on the
        target tile (whatever stood there leaves the board), and its old
        tile is emptied. */
    method Shift(piece: Piece, to: Square)
      requires GridValid() && Holds(piece) && OnBoard(to)
      modifies this`Pos, Tiles`pieceHere, piece`pos, piece`hasMoved
      ensures GridValid() && piece.pos == to && piece.hasMoved
      ensures Pos == Moved(old(Pos), old(piece.pos), to)
    {
      var from := piece.pos;
      assert TileOk(to.1, to.0);
      piece.pos := to;
      piece.hasMoved := true;
      grid[to.1, to.0].pieceHere := piece;
      grid[from.1, from.0].pieceHere := null;
      Pos := Moved(old(Pos), from, to);
      forall r, f | 0 <= r < 8 && 0 <= f < 8
        ensures TileOk(r, f)
      {
        assert old(TileOk(r, f));
      }
    }

    /** The rook move of one castling case: whatever stands on the corner
        goes to dest and learns its new square; an empty corner changes
        nothing. */
    method MoveRook(corner: Square, dest: Square)
      requires GridValid() && OnBoard(corner) && OnBoard(dest) && corner != dest
      modifies this`Pos, Tiles`pieceHere, Pieces`pos
      ensures GridValid() && Pos == MoveCorner(old(Pos), corner, dest)
    {
      assert TileOk(corner.1, corner.0);
      assert TileOk(dest.1, dest.0);
      var rook := grid[corner.1, corner.0].GetPieceHere();
      if rook != null {
        grid[dest.1, dest.0].pieceHere := rook;
        grid[corner.1, corner.0].pieceHere := null;
        rook.pos := dest;
        Pos := MoveCorner(old(Pos), corner, dest);
        forall r, f | 0 <= r < 8 && 0 <= f < 8
          ensures TileOk(r, f)
        {
          assert old(TileOk(r, f));
        }
      }
    }

    /** The castling step of move_piece for a moved piece v that left file
        fromFile for `to`: on the four castling squares a king from file 4
        brings the corner's occupant next to it. */
    method Castling(v: PieceView, fromFile: int, to: Square)
      requires GridValid() && OnBoard(to)
      modifies this`Pos, Tiles`pieceHere, Pieces`pos
      ensures GridValid() && Pos == Castle(old(Pos), fromFile, to, v)
    {
      var file, rank := to.0, to.1;
      if v.kind == King && fromFile == 4 {
        if (v.color == White && rank == 0 && (file == 6 || file == 2)) ||
           (v.color == Black && rank == 7 && (file == 6 || file == 2)) {
          MoveRook(Corner(to), RookDest(to));
        }
      }
    }

    /** The board part of move_piece: the captured piece's value is booked,
        the piece moves, the material is recounted, then the castling step. */
    method ApplyMove(piece: Piece, to: Square)
      requires GridValid() && Holds(piece) && OnBoard(to)
      modifies this`Pos, this`materialDifferential, Tiles`pieceHere, Pieces`pos, Pieces`hasMoved
      ensures GridValid()
      ensures Pos == AfterMove(old(Pos), old(piece.pos), to)
      ensures materialDifferential == Material(Moved(old(Pos), old(piece.pos), to))
    {
      var from := piece.pos;
      assert TileOk(to.1, to.0);
      var captured := grid[to.1, to.0].pieceHere;
      if captured != null {
        var value := Value(captured.kind);
        if captured.color == White {
          materialDifferential := materialDifferential - value;
        }
        if captured.color == Black {
          materialDifferential := materialDifferential + value;
        }
      }
      Shift(piece, to);
      materialDifferential := CalculateMaterial();
      Castling(piece.View(), from.0, to);
    }

    /** The tail of move_piece once the piece has moved: both kings are
        tested for check (the answers only feed the check markers), the move
        is recorded and the selection dropped. */
    method FinishMove(piece: Piece, from: Square, to: Square, captured: Piece?)
      requires GridValid() && !checkingForChecks
      modifies this`selected, this`history, this`currentIndex
      modifies this`Pos, this`checkingForChecks, Tiles`pieceHere, Pieces`pos
      ensures GridValid() && Pos == old(Pos) && !checkingForChecks
      ensures history == old(history) + [Entry(piece, Some(from), Some(to), captured, Encode(Pos))]
      ensures IsCurrPos() && selected == null
    {
      var enemyInCheck := CheckForChecks(piece.color.Opposite());
      var ownInCheck := CheckForChecks(piece.color);
      Record(piece, Some(from), Some(to), captured);
      label Recorded:
      selected := null;
      forall r, f | 0 <= r < 8 && 0 <= f < 8
        ensures TileOk(r, f)
      {
        assert old@Recorded(TileOk(r, f));
      }
    }

    /** move_piece(file, rank): refused unless the board shows the newest
        position; otherwise the selected piece is moved, both kings are
        tested for check, the move is recorded and the selection dropped. */
    method MovePiece(file: int, rank: int)
      requires Valid() && OnBoard((file, rank))
      requires IsCurrPos() ==> selected != null && Holds(selected)
      modifies this`selected, this`materialDifferential, this`history, this`currentIndex
      modifies this`Pos, this`checkingForChecks, Tiles`pieceHere, Pieces`pos, Pieces`hasMoved
      ensures Valid()
      ensures !old(IsCurrPos()) ==> unchanged(this) && unchanged(old(Tiles)) && unchanged(old(Pieces))
      ensures old(IsCurrPos()) ==>
        Pos == AfterMove(old(Pos), old(selected.pos), (file, rank)) &&
        materialDifferential == Material(Moved(old(Pos), old(selected.pos), (file, rank))) &&
        history == old(history) + [Entry(old(selected), Some(old(selected.pos)), Some((file, rank)),
                                         old(Occupant((file, rank))), Encode(Pos))] &&
        IsCurrPos() && selected == null
    {
      if !IsCurrPos() {
        return;
      }
      var piece := selected;
      var beforeMove := piece.pos;
      assert TileOk(rank, file);
      var captured := grid[rank, file].pieceHere;
      ApplyMove(piece, (file, rank));
      FinishMove(piece, beforeMove, (file, rank), captured);
      RoundTrip(Pos);
    }

    /** grid[s.1][s.0].piece_here = None */
    method Vacate(s: Square)
      requires GridValid() && OnBoard(s)
      modifies this`Pos, Tiles`pieceHere
      ensures GridValid() && Pos == Put(old(Pos), s, None)
    {
      assert TileOk(s.1, s.0);
      grid[s.1, s.0].pieceHere := null;
      Pos := Put(Pos, s, None);
      forall r, f | 0 <= r < 8 && 0 <= f < 8
        ensures TileOk(r, f)
      {
        assert old(TileOk(r, f));
      }
    }

    /** The pawn's part of en_passant: its tile (if it still holds it) is
        emptied, then it lands on `to`, learns its square and is marked as
        moved. */
    method Land(piece: Piece, to: Square)
      requires GridValid() && OnBoard(piece.pos) && OnBoard(to) && piece in Pieces
      modifies this`Pos, Tiles`pieceHere, piece`pos, piece`hasMoved
      ensures GridValid() && Holds(piece) && piece.pos == to && piece.hasMoved
      ensures Pos == Put(Put(old(Pos), old(piece.pos), None), to, Some(PieceView(piece.color, piece.kind, true)))
    {
      var prevPos := piece.pos;
      assert TileOk(prevPos.1, prevPos.0);
      assert TileOk(to.1, to.0);
      grid[prevPos.1, prevPos.0].pieceHere := null;
      grid[to.1, to.0].pieceHere := piece;
      piece.pos := to;
      piece.hasMoved := true;
      Pos := Put(Put(Pos, prevPos, None), to, Some(piece.View()));
      forall r, f | 0 <= r < 8 && 0 <= f < 8
        ensures TileOk(r, f)
      {
        assert old(TileOk(r, f));
      }
    }

    /** en_passant(piece, newPos): on the en passant target the square
        behind it is emptied first; then the pawn leaves its tile, lands on
        newPos, learns its square and is marked as moved, and the target is
        cleared. */
    method EnPassant(piece: Piece, newPos: Square)
      requires GridValid() && Holds(piece) && OnBoard(newPos)
      requires enPassantTarget == Some(newPos) ==> OnBoard(BehindTarget(piece.color, newPos))
      modifies this`Pos, this`enPassantTarget, Tiles`pieceHere, piece`pos, piece`hasMoved
      ensures GridValid() && Holds(piece) && piece.pos == newPos && piece.hasMoved
      ensures enPassantTarget == None
      ensures Pos == AfterEnPassant(old(Pos), old(piece.pos), newPos, old(enPassantTarget))
    {
      assert TileOk(piece.pos.1, piece.pos.0);
      if enPassantTarget.Some? && newPos == enPassantTarget.value {
        Vacate(BehindTarget(piece.color, newPos));
      }
      Land(piece, newPos);
      enPassantTarget := None;
    }

    /** promote(color, file, rank): a new, unmoved queen of that colour
        replaces whatever stands on the square. */
    method Promote(c: Color, file: int, rank: int)
      requires GridValid() && OnBoard((file, rank))
      modifies this`Pos, this`Pieces, Tiles`pieceHere
      ensures GridValid() && Pos == Put(old(Pos), (file, rank), Fresh(c, Queen))
    {
      PutNew((file, rank), c, Queen);
    }

    /** resign(c): the game ends and the other colour wins. */
    method Resign(c: Color)
      modifies this`resigned, this`checkmate, this`mateColor
      ensures resigned && checkmate && mateColor == Some(c.Opposite())
    {
      resigned := true;
      checkmate := true;
      mateColor := Some(c.Opposite());
    }

    method SetCheckmate()
      modifies this`checkmate
      ensures checkmate
    {
      checkmate := true;
    }

    method SetStalemate()
      modifies this`stalemate
      ensures stalemate
    {
      stalemate := true;
    }

    method SetMateColor(c: Color)
      modifies this`mateColor
      ensures mateColor == Some(c)
    {
      mateColor := Some(c);
    }

    /** The tile on (file f, rank r). */
    ghost function TileAt(r: int, f: int): Tile
      requires GridValid() && 0 <= r < 8 && 0 <= f < 8
      reads this`grid, this`Pos, this`Tiles, this`Pieces, grid, Tiles`pieceHere, Pieces`pos, Pieces`hasMoved
    {
      assert TileOk(r, f);
      grid[r, f]
    }

    /** remove_highlights(): no tile of the grid is highlighted any more;
        occupants and the other markers are untouched. */
    method RemoveHighlights()
      requires GridValid()
      modifies Tiles`highlighted
      ensures GridValid()
      ensures forall r, f :: 0 <= r < 8 && 0 <= f < 8 ==> !TileAt(r, f).highlighted
    {
      var rank := 0;
      while rank < 8
        invariant 0 <= rank <= 8 && GridValid()
        invariant forall r, f :: 0 <= r < rank && 0 <= f < 8 ==> !TileAt(r, f).highlighted
      {
        var file := 0;
        while file < 8
          invariant 0 <= file <= 8 && GridValid()
          invariant forall r, f :: 0 <= r < rank && 0 <= f < 8 ==> !TileAt(r, f).highlighted
          invariant forall f :: 0 <= f < file ==> !TileAt(rank, f).highlighted
        {
          assert TileOk(rank, file);
          grid[rank, file].ClearHighlight();
          file := file + 1;
        }
        rank := rank + 1;
      }
    }

    /** remove_prev(): no tile of the grid carries the previous-move marker
        any more; occupants and the other markers are untouched. */
    method RemovePrev()
      requires GridValid()
      modifies Tiles`prev
      ensures GridValid()
      ensures forall r, f :: 0 <= r < 8 && 0 <= f < 8 ==> !TileAt(r, f).prev
    {
      var rank := 0;
      while rank < 8
        invariant 0 <= rank <= 8 && GridValid()
        invariant forall r, f :: 0 <= r < rank && 0 <= f < 8 ==> !TileAt(r, f).prev
      {
        var file := 0;
        while file < 8
          invariant 0 <= file <= 8 && GridValid()
          invariant forall r, f :: 0 <= r < rank && 0 <= f < 8 ==> !TileAt(r, f).prev
          invariant forall f :: 0 <= f < file ==> !TileAt(rank, f).prev
        {
          assert TileOk(rank, file);
          grid[rank, file].ClearPrev();
          file := file + 1;
        }
        rank := rank + 1;
      }
    }

    /** One piece letter of load_fen(): a new piece of that colour and kind
        on (file, rank), a pawn off its home rank marked as having moved. */
    method LoadPiece(c: Color, kind: Kind, file: int, rank: int)
      requires GridValid() && OnBoard((file, rank))
      modifies this`Pos, this`Pieces, Tiles`pieceHere
      ensures GridValid() && Tiles == old(Tiles)
      ensures Pos == Put(old(Pos), (file, rank), Some(Loaded(c, kind, rank)))
    {
      var piece := new Piece(c, kind, (file, rank));
      if kind == Pawn && ((c == White && rank != 1) || (c == Black && rank != 6)) {
        piece.hasMoved := true;
      }
      PlacePiece(piece, (file, rank));
    }

    /** The loop of load_fen over one rank string, the k-th from the end:
        a digit skips that many files, a letter puts a new piece of its
        colour and kind on the next file. */
    method LoadRank(row: string, k: int)
      requires GridValid() && 0 <= k
      requires k < 8 ==> ParseRow(row, 0, Pos[k], k).Some?
      requires k >= 8 ==> AllDigits(row)
      modifies this`Pos, this`Pieces, Tiles`pieceHere
      ensures GridValid() && Tiles == old(Tiles)
      ensures k < 8 ==> Pos == old(Pos)[k := ParseRow(row, 0, old(Pos)[k], k).value]
      ensures k >= 8 ==> Pos == old(Pos)
    {
      var fileIndex := 0;
      var i := 0;
      while i < |row|
        invariant 0 <= i <= |row| && GridValid() && Tiles == old(Tiles)
        invariant k < 8 ==> ParseRow(row[i..], fileIndex, Pos[k], k) == ParseRow(row, 0, old(Pos)[k], k)
        invariant k < 8 ==> Pos == old(Pos)[k := Pos[k]]
        invariant k >= 8 ==> Pos == old(Pos)
      {
        var ch := row[i];
        assert row[i..][0] == ch && row[i..][1..] == row[i + 1..];
        match DigitValue(ch) {
          case Some(d) =>
            fileIndex := fileIndex + d;
          case None =>
            if k >= 8 {
              assert false;
            }
            var ck := PieceOf(ch).value;
            LoadPiece(ck.0, ck.1, fileIndex, k);
            fileIndex := fileIndex + 1;
        }
        i := i + 1;
      }
    }

    /** load_fen(fen): new empty tiles everywhere, then the rank strings
        from the last one (rank 0) upwards, then the material recount. */
    method LoadFen(fen: string)
      requires GridValid() && Decode(fen).Some?
      modifies grid, this`Pos, this`Tiles, this`Pieces, this`materialDifferential
      ensures GridValid() && Pos == Decode(fen).value
      ensures materialDifferential == Material(Pos)
    {
      RebuildTiles();
      BlankIsEmpty(Pos);
      var rankRows := Split(fen);
      var rankIndex := 0;
      while rankIndex < |rankRows|
        invariant 0 <= rankIndex <= |rankRows| && GridValid()
        invariant forall t :: t in Tiles ==> fresh(t)
        invariant DecodeFrom(rankRows, rankIndex, Pos) == Decode(fen)
      {
        DecodeStep(rankRows, rankIndex, Pos);
        LoadRank(rankRows[|rankRows| - 1 - rankIndex], rankIndex);
        rankIndex := rankIndex + 1;
      }
      materialDifferential := CalculateMaterial();
    }
  }
}
