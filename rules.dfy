/** The board's rules as functions of a position: the move generator the
    pieces supply, check detection and the legality filter as the board
    computes them, the effect of a move (castling included), en passant,
    the starting layout and the insufficient-material draw. */
module Rules {
  import opened Chess

  /** piece.get_moves(board): the pseudo-legal destinations of the piece on
      the given square, for the given position and en passant target. The
      pieces' movement rules are not part of this model; a board is built
      around whatever generator it is given. */
  type MoveGen = (Position, Square, Option<Square>) -> seq<Square>

  /** A generator only ever proposes squares of the board. */
  ghost predicate GenOnBoard(gen: MoveGen) {
    forall p, s, e, i :: 0 <= i < |gen(p, s, e)| ==> OnBoard(gen(p, s, e)[i])
  }

  /** Position in the board's scan order (rank by rank, file by file). */
  function Index(s: Square): int {
    s.1 * 8 + s.0
  }

  function Sq(k: int): Square {
    (k % 8, k / 8)
  }

  /** The k-th square of the scan order is on the board and has index k;
      no other square of the board has that index. */
  lemma SqOf(k: int)
    requires 0 <= k < 64
    ensures OnBoard(Sq(k)) && Index(Sq(k)) == k
    ensures forall s :: OnBoard(s) && Index(s) == k ==> s == Sq(k)
  {
  }

  /** A piece of colour c (own) or of the other colour (not own). */
  predicate IsSide(cell: Cell, c: Color, own: bool) {
    cell.Some? && (cell.value.color == c) == own
  }

  predicate IsKingOf(cell: Cell, c: Color) {
    cell.Some? && cell.value.color == c && cell.value.kind == King
  }

  /** find_king: the first king of colour c in scan order from index k on. */
  function ScanKing(p: Position, c: Color, k: nat): (r: Option<Square>)
    requires Shaped(p) && k <= 64
    ensures r.Some? ==> OnBoard(r.value) && k <= Index(r.value) && IsKingOf(At(p, r.value), c)
    ensures r.Some? ==> forall s :: OnBoard(s) && k <= Index(s) < Index(r.value) ==> !IsKingOf(At(p, s), c)
    ensures r.None? ==> forall s :: OnBoard(s) && k <= Index(s) ==> !IsKingOf(At(p, s), c)
    decreases 64 - k
  {
    if k == 64 then None
    else
      SqOf(k);
      if IsKingOf(At(p, Sq(k)), c) then Some(Sq(k))
      else ScanKing(p, c, k + 1)
  }

  function KingSquare(p: Position, c: Color): Option<Square>
    requires Shaped(p)
  {
    ScanKing(p, c, 0)
  }

  /** Some piece of the chosen side, standing on a square scanned before
      index k, is proposed a move to m (nothing filtered out). */
  ghost predicate ReachedBefore(gen: MoveGen, p: Position, ep: Option<Square>, c: Color, own: bool, k: int, m: Square)
    requires Shaped(p)
  {
    exists s :: OnBoard(s) && Index(s) < k && IsSide(At(p, s), c, own) && m in gen(p, s, ep)
  }

  /** check_for_checks(c) when the guard is down: c's king stands on a square
      some piece of the other colour can move to. The nested legality checks
      made while the guard is up all answer "no check", so the enemy moves
      counted here are the generator's own. */
  ghost predicate InCheck(gen: MoveGen, p: Position, c: Color, ep: Option<Square>)
    requires Shaped(p)
  {
    match KingSquare(p, c)
    case None => false
    case Some(k) => ReachedBefore(gen, p, ep, c, false, 64, k)
  }

  /** The trial move of check_if_move_into_check: the source square is
      emptied, then the piece is put on the target square. */
  function Simulate(p: Position, from: Square, to: Square): (q: Position)
    requires Shaped(p) && OnBoard(from) && OnBoard(to)
    ensures Shaped(q)
  {
    Put(Put(p, from, None), to, At(p, from))
  }

  /** Whether get_all_legal keeps the move from `from` to `to`: while the
      guard is up every move is kept; otherwise a move is dropped when it
      leaves the mover's king in check. */
  ghost predicate Safe(gen: MoveGen, p: Position, from: Square, to: Square, ep: Option<Square>, inFlight: bool)
    requires Shaped(p) && OnBoard(from) && OnBoard(to) && At(p, from).Some?
  {
    inFlight || !InCheck(gen, Simulate(p, from, to), At(p, from).value.color, ep)
  }

  ghost function Filter(gen: MoveGen, p: Position, from: Square, ep: Option<Square>, inFlight: bool, ms: seq<Square>): (r: seq<Square>)
    requires Shaped(p) && OnBoard(from) && At(p, from).Some?
    requires forall i :: 0 <= i < |ms| ==> OnBoard(ms[i])
    decreases |ms|
  {
    if ms == [] then []
    else
      var last := ms[|ms| - 1];
      Filter(gen, p, from, ep, inFlight, ms[..|ms| - 1])
        + (if Safe(gen, p, from, last, ep, inFlight) then [last] else [])
  }

  /** A non-empty sequence is its front followed by its last element, and
      its members are the front's and that element. */
  lemma SplitLast(ms: seq<Square>)
    requires ms != []
    ensures ms == ms[..|ms| - 1] + [ms[|ms| - 1]]
    ensures forall m :: m in ms <==> m in ms[..|ms| - 1] || m == ms[|ms| - 1]
  {
    assert ms == ms[..|ms| - 1] + [ms[|ms| - 1]];
  }

  /** The filter keeps exactly the safe moves. */
  lemma {:induction false} FilterMembers(gen: MoveGen, p: Position, from: Square, ep: Option<Square>, inFlight: bool, ms: seq<Square>, m: Square)
    requires Shaped(p) && OnBoard(from) && At(p, from).Some?
    requires forall i :: 0 <= i < |ms| ==> OnBoard(ms[i])
    ensures m in Filter(gen, p, from, ep, inFlight, ms) <==> m in ms && Safe(gen, p, from, m, ep, inFlight)
    decreases |ms|
  {
    if ms != [] {
      var init := ms[..|ms| - 1];
      var last := ms[|ms| - 1];
      FilterMembers(gen, p, from, ep, inFlight, init, m);
      SplitLast(ms);
    }
  }

  /** The filter over one more move keeps it exactly when it is safe. */
  lemma FilterStep(gen: MoveGen, p: Position, from: Square, ep: Option<Square>, inFlight: bool, ms: seq<Square>, i: int)
    requires Shaped(p) && OnBoard(from) && At(p, from).Some?
    requires forall j :: 0 <= j < |ms| ==> OnBoard(ms[j])
    requires 0 <= i < |ms|
    ensures Filter(gen, p, from, ep, inFlight, ms[..i + 1])
         == Filter(gen, p, from, ep, inFlight, ms[..i]) + (if Safe(gen, p, from, ms[i], ep, inFlight) then [ms[i]] else [])
  {
    assert ms[..i + 1][..i] == ms[..i];
  }

  /** get_all_legal(piece) for the piece on square `from`. */
  ghost function Legal(gen: MoveGen, p: Position, from: Square, ep: Option<Square>, inFlight: bool): seq<Square>
    requires GenOnBoard(gen) && Shaped(p) && OnBoard(from) && At(p, from).Some?
  {
    Filter(gen, p, from, ep, inFlight, gen(p, from, ep))
  }

  /** m is a legal move of one of the chosen side's pieces standing on a
      square scanned before index k (get_all_moves when own,
      get_all_enemy_moves when not). */
  ghost predicate LegalBefore(gen: MoveGen, p: Position, ep: Option<Square>, c: Color, own: bool, inFlight: bool, k: int, m: Square)
    requires GenOnBoard(gen) && Shaped(p)
  {
    exists s :: OnBoard(s) && Index(s) < k && IsSide(At(p, s), c, own) && m in Legal(gen, p, s, ep, inFlight)
  }

  ghost predicate SideMove(gen: MoveGen, p: Position, ep: Option<Square>, c: Color, own: bool, inFlight: bool, m: Square)
    requires GenOnBoard(gen) && Shaped(p)
  {
    LegalBefore(gen, p, ep, c, own, inFlight, 64, m)
  }

  predicate NoDup(s: seq<Square>) {
    forall i, j :: 0 <= i < j < |s| ==> s[i] != s[j]
  }

  lemma IndexInjective(s: Square, t: Square)
    requires OnBoard(s) && OnBoard(t) && Index(s) == Index(t)
    ensures s == t
  {
  }

  /** Scanning one more square adds exactly the legal moves of the piece on
      it, when it belongs to the chosen side. */
  lemma LegalBeforeStep(gen: MoveGen, p: Position, ep: Option<Square>, c: Color, own: bool, inFlight: bool, s: Square, m: Square)
    requires GenOnBoard(gen) && Shaped(p) && OnBoard(s)
    ensures LegalBefore(gen, p, ep, c, own, inFlight, Index(s) + 1, m)
        <==> LegalBefore(gen, p, ep, c, own, inFlight, Index(s), m)
             || (IsSide(At(p, s), c, own) && m in Legal(gen, p, s, ep, inFlight))
  {
    if LegalBefore(gen, p, ep, c, own, inFlight, Index(s) + 1, m) {
      var t :| OnBoard(t) && Index(t) < Index(s) + 1 && IsSide(At(p, t), c, own) && m in Legal(gen, p, t, ep, inFlight);
      if Index(t) == Index(s) {
        IndexInjective(s, t);
      }
    }
  }

  /** One square of the get_all_moves scan: the moves listed so far grow by
      the legal moves of the piece on s when it belongs to the chosen side,
      and stay as they are otherwise. */
  lemma CollectStep(gen: MoveGen, p: Position, ep: Option<Square>, c: Color, own: bool, inFlight: bool,
                    s: Square, before: seq<Square>, after: seq<Square>)
    requires GenOnBoard(gen) && Shaped(p) && OnBoard(s)
    requires forall m :: m in before <==> LegalBefore(gen, p, ep, c, own, inFlight, Index(s), m)
    requires IsSide(At(p, s), c, own) ==>
      forall m :: m in after <==> m in before || m in Legal(gen, p, s, ep, inFlight)
    requires !IsSide(At(p, s), c, own) ==> after == before
    ensures forall m :: m in after <==> LegalBefore(gen, p, ep, c, own, inFlight, Index(s) + 1, m)
  {
    forall m
      ensures m in after <==> LegalBefore(gen, p, ep, c, own, inFlight, Index(s) + 1, m)
    {
      LegalBeforeStep(gen, p, ep, c, own, inFlight, s, m);
    }
  }

  lemma NoneBefore(gen: MoveGen, p: Position, ep: Option<Square>, c: Color, own: bool, inFlight: bool, m: Square)
    requires GenOnBoard(gen) && Shaped(p)
    ensures !LegalBefore(gen, p, ep, c, own, inFlight, 0, m)
  {
  }

  /** With the guard up, the legal moves are the generator's moves. */
  lemma SideMoveInFlight(gen: MoveGen, p: Position, ep: Option<Square>, c: Color, own: bool, m: Square)
    requires GenOnBoard(gen) && Shaped(p)
    ensures SideMove(gen, p, ep, c, own, true, m) <==> ReachedBefore(gen, p, ep, c, own, 64, m)
  {
    if SideMove(gen, p, ep, c, own, true, m) {
      var s :| OnBoard(s) && Index(s) < 64 && IsSide(At(p, s), c, own) && m in Legal(gen, p, s, ep, true);
      FilterMembers(gen, p, s, ep, true, gen(p, s, ep), m);
    }
    if ReachedBefore(gen, p, ep, c, own, 64, m) {
      var s :| OnBoard(s) && Index(s) < 64 && IsSide(At(p, s), c, own) && m in gen(p, s, ep);
      FilterMembers(gen, p, s, ep, true, gen(p, s, ep), m);
    }
  }

  /** The move a piece makes on the board: it leaves its square and lands on
      the target with has_moved set (the target's occupant is overwritten). */
  function Relocate(p: Position, from: Square, to: Square, v: PieceView): (q: Position)
    requires Shaped(p) && OnBoard(from) && OnBoard(to)
    ensures Shaped(q)
  {
    Put(Put(p, to, Some(v)), from, None)
  }

  /** Moves whatever stands on the corner to dest; nothing when the corner
      is empty. */
  function MoveCorner(p: Position, corner: Square, dest: Square): (q: Position)
    requires Shaped(p) && OnBoard(corner) && OnBoard(dest)
    ensures Shaped(q)
  {
    if At(p, corner).Some? then Put(Put(p, dest, At(p, corner)), corner, None) else p
  }

  /** The four fixed castling cases: a king that left file 4 and landed on a
      castling square takes the corner's occupant with it. */
  function Castle(p: Position, fromFile: int, to: Square, v: PieceView): (q: Position)
    requires Shaped(p)
    ensures Shaped(q)
  {
    if v.kind == King && fromFile == 4 then
      if v.color == White && to == (6, 0) then MoveCorner(p, (7, 0), (5, 0))
      else if v.color == White && to == (2, 0) then MoveCorner(p, (0, 0), (3, 0))
      else if v.color == Black && to == (6, 7) then MoveCorner(p, (7, 7), (5, 7))
      else if v.color == Black && to == (2, 7) then MoveCorner(p, (0, 7), (3, 7))
      else p
    else p
  }

  predicate IsCastling(v: PieceView, from: Square, to: Square) {
    v.kind == King && from.0 == 4 &&
    ((v.color == White && (to == (6, 0) || to == (2, 0))) ||
     (v.color == Black && (to == (6, 7) || to == (2, 7))))
  }

  /** The position once move_piece has moved the piece on `from` to `to`,
      before any castling (the point where the material is recounted). */
  function Moved(p: Position, from: Square, to: Square): (q: Position)
    requires Shaped(p) && OnBoard(from) && OnBoard(to) && At(p, from).Some?
    ensures Shaped(q)
  {
    Relocate(p, from, to, At(p, from).value.(hasMoved := true))
  }

  /** The position after move_piece moves the piece on `from` to `to`. */
  function AfterMove(p: Position, from: Square, to: Square): (q: Position)
    requires Shaped(p) && OnBoard(from) && OnBoard(to) && At(p, from).Some?
    ensures Shaped(q)
  {
    Castle(Moved(p, from, to), from.0, to, At(p, from).value.(hasMoved := true))
  }

  /** The moved piece stands on the target with has_moved set and its
      square is empty; a move that is not castling changes no other square. */
  lemma AfterMoveLands(p: Position, from: Square, to: Square)
    requires Shaped(p) && OnBoard(from) && OnBoard(to) && At(p, from).Some? && from != to
    ensures At(AfterMove(p, from, to), to) == Some(At(p, from).value.(hasMoved := true))
    ensures At(AfterMove(p, from, to), from) == None
    ensures !IsCastling(At(p, from).value, from, to) ==>
      forall s :: OnBoard(s) && s != from && s != to ==> At(AfterMove(p, from, to), s) == At(p, s)
  {
  }

  /** Castling relocates the corner's occupant next to the king (or does
      nothing more when the corner is empty). */
  lemma AfterMoveCastles(p: Position, from: Square, to: Square, corner: Square, dest: Square)
    requires Shaped(p) && OnBoard(from) && OnBoard(to) && At(p, from).Some?
    requires IsCastling(At(p, from).value, from, to)
    requires corner == Corner(to) && dest == RookDest(to)
    ensures At(p, corner).Some? ==>
      At(AfterMove(p, from, to), dest) == At(p, corner) && At(AfterMove(p, from, to), corner) == None
    ensures At(p, corner).Some? ==>
      forall s :: OnBoard(s) && s != from && s != to && s != corner && s != dest ==> At(AfterMove(p, from, to), s) == At(p, s)
    ensures At(p, corner).None? ==>
      forall s :: OnBoard(s) && s != from && s != to ==> At(AfterMove(p, from, to), s) == At(p, s)
  {
  }

  /** The corner a castling king's rook comes from, and the square it goes to. */
  function Corner(to: Square): Square {
    (if to.0 == 6 then 7 else 0, to.1)
  }

  function RookDest(to: Square): Square {
    (if to.0 == 6 then 5 else 3, to.1)
  }

  /** The material recounted by move_piece differs from the count before
      the move by exactly the value of the captured piece. */
  lemma MaterialOfMove(p: Position, from: Square, to: Square)
    requires Shaped(p) && OnBoard(from) && OnBoard(to) && At(p, from).Some? && from != to
    ensures Material(Moved(p, from, to)) == Material(p) - Signed(At(p, to))
  {
    var v := At(p, from).value.(hasMoved := true);
    MaterialPut(p, to, Some(v));
    MaterialPut(Put(p, to, Some(v)), from, None);
  }

  /** A move changes the material differential only by the value of what
      it captures: nothing for a quiet move, castling included (the rook's
      new square being empty, as castling requires). */
  lemma MaterialAfterMove(p: Position, from: Square, to: Square)
    requires Shaped(p) && OnBoard(from) && OnBoard(to) && At(p, from).Some? && from != to
    requires IsCastling(At(p, from).value, from, to) ==> At(p, RookDest(to)).None?
    ensures Material(AfterMove(p, from, to)) == Material(p) - Signed(At(p, to))
  {
    var v := At(p, from).value.(hasMoved := true);
    MaterialOfMove(p, from, to);
    var q := Moved(p, from, to);
    if IsCastling(v, from, to) {
      var corner := Corner(to);
      var dest := RookDest(to);
      assert Castle(q, from.0, to, v) == MoveCorner(q, corner, dest);
      if At(q, corner).Some? {
        assert At(q, dest) == None;
        MaterialPut(q, dest, At(q, corner));
        MaterialPut(Put(q, dest, At(q, corner)), corner, None);
      }
    } else {
      assert Castle(q, from.0, to, v) == q;
    }
  }

  /** The square behind an en passant target, from the capturing colour's
      side: one rank down for White, one rank up for Black. For White the
      rank index -1 addresses the last rank, as a negative list index does;
      for Black the rank index 8 addresses nothing. */
  function BehindTarget(c: Color, target: Square): Square {
    if c == White then (target.0, (target.1 - 1) % 8) else (target.0, target.1 + 1)
  }

  /** The position after en_passant(pawn, to) with the pawn on `from`. */
  function AfterEnPassant(p: Position, from: Square, to: Square, ep: Option<Square>): (q: Position)
    requires Shaped(p) && OnBoard(from) && OnBoard(to) && At(p, from).Some?
    requires ep == Some(to) ==> OnBoard(BehindTarget(At(p, from).value.color, to))
    ensures Shaped(q)
  {
    var v := At(p, from).value;
    var cleared := if ep == Some(to) then Put(p, BehindTarget(v.color, to), None) else p;
    Put(Put(cleared, from, None), to, Some(v.(hasMoved := true)))
  }

  /** The capturing pawn lands on the target with has_moved set; on the
      target itself the square behind it is emptied; any other square
      except the pawn's own is left alone. */
  lemma EnPassantEffect(p: Position, from: Square, to: Square, ep: Option<Square>)
    requires Shaped(p) && OnBoard(from) && OnBoard(to) && At(p, from).Some?
    requires ep == Some(to) ==> OnBoard(BehindTarget(At(p, from).value.color, to))
    ensures At(AfterEnPassant(p, from, to, ep), to) == Some(At(p, from).value.(hasMoved := true))
    ensures from != to ==> At(AfterEnPassant(p, from, to, ep), from) == None
    ensures ep == Some(to) ==> At(AfterEnPassant(p, from, to, ep), BehindTarget(At(p, from).value.color, to)) == None
    ensures forall s ::
      (OnBoard(s) && s != from && s != to && (ep == Some(to) ==> s != BehindTarget(At(p, from).value.color, to)))
      ==> At(AfterEnPassant(p, from, to, ep), s) == At(p, s)
  {
  }

  function PawnOf(c: Color): Cell {
    Some(PieceView(c, Pawn, false))
  }

  function Fresh(c: Color, k: Kind): Cell {
    Some(PieceView(c, k, false))
  }

  /** The pawns of the first n files placed, file by file. */
  function PlacePawns(p: Position, n: nat): (q: Position)
    requires Shaped(p) && n <= 8
    ensures Shaped(q)
  {
    if n == 0 then p
    else Put(Put(PlacePawns(p, n - 1), (n - 1, 1), PawnOf(White)), (n - 1, 6), PawnOf(Black))
  }

  /** The kind that starts on each file of the back ranks. */
  function BackRank(f: int): Kind
    requires 0 <= f < 8
  {
    [Rook, Knight, Bishop, Queen, King, Bishop, Knight, Rook][f]
  }

  /** What a square holds once pieces of kind k are put on the given files
      of both back ranks (White on rank 0, Black on rank 7). */
  function Pair(s: Square, files: seq<int>, k: Kind, before: Cell): Cell {
    if s.0 in files && s.1 == 0 then Fresh(White, k)
    else if s.0 in files && s.1 == 7 then Fresh(Black, k)
    else before
  }

  /** Puts a White piece on (f, 0) and a Black one on (f, 7). */
  function PlaceBoth(p: Position, f: int, k: Kind): (q: Position)
    requires Shaped(p) && 0 <= f < 8
    ensures Shaped(q)
    ensures forall s :: OnBoard(s) ==> At(q, s) == Pair(s, [f], k, At(p, s))
  {
    Put(Put(p, (f, 0), Fresh(White, k)), (f, 7), Fresh(Black, k))
  }

  /** Both rooks of each colour: (0,0), (7,0), (0,7), (7,7), in that order. */
  function PlaceRooks(p: Position): (q: Position)
    requires Shaped(p)
    ensures Shaped(q)
    ensures forall s :: OnBoard(s) ==> At(q, s) == Pair(s, [0, 7], Rook, At(p, s))
  {
    Put(Put(Put(Put(p, (0, 0), Fresh(White, Rook)), (7, 0), Fresh(White, Rook)),
        (0, 7), Fresh(Black, Rook)), (7, 7), Fresh(Black, Rook))
  }

  /** A pair of minor pieces of each colour on files a and b (knights or
      bishops): White's two first, then Black's. */
  function PlaceMinor(p: Position, a: int, b: int, k: Kind): (q: Position)
    requires Shaped(p) && 0 <= a < 8 && 0 <= b < 8 && a != b
    ensures Shaped(q)
    ensures forall s :: OnBoard(s) ==> At(q, s) == Pair(s, [a, b], k, At(p, s))
  {
    Put(Put(Put(Put(p, (a, 0), Fresh(White, k)), (b, 0), Fresh(White, k)),
        (a, 7), Fresh(Black, k)), (b, 7), Fresh(Black, k))
  }

  /** initialize_pieces: the pawns, then kings, queens, rooks, knights and
      bishops, each put on its starting square. */
  function Setup(p: Position): (q: Position)
    requires Shaped(p)
    ensures Shaped(q)
  {
    var pawns := PlacePawns(p, 8);
    var kings := PlaceBoth(pawns, 4, King);
    var queens := PlaceBoth(kings, 3, Queen);
    var rooks := PlaceRooks(queens);
    var knights := PlaceMinor(rooks, 1, 6, Knight);
    PlaceMinor(knights, 2, 5, Bishop)
  }

  /** Setup, stage by stage. */
  lemma SetupStages(p: Position, pawns: Position, kings: Position, queens: Position, rooks: Position,
                    knights: Position, q: Position)
    requires Shaped(p) && pawns == PlacePawns(p, 8)
    requires kings == PlaceBoth(pawns, 4, King) && queens == PlaceBoth(kings, 3, Queen)
    requires rooks == PlaceRooks(queens) && knights == PlaceMinor(rooks, 1, 6, Knight)
    requires q == PlaceMinor(knights, 2, 5, Bishop)
    ensures q == Setup(p)
  {
  }

  /** What a square holds in a new game: the back-rank pieces on ranks 0
      and 7, the pawns on ranks 1 and 6, nothing elsewhere, nothing moved. */
  function StartCell(s: Square): Cell
    requires OnBoard(s)
  {
    if s.1 == 0 then Fresh(White, BackRank(s.0))
    else if s.1 == 7 then Fresh(Black, BackRank(s.0))
    else if s.1 == 1 then PawnOf(White)
    else if s.1 == 6 then PawnOf(Black)
    else None
  }

  /** The position of a new game, square by square. */
  ghost predicate IsStart(p: Position) {
    Shaped(p) && forall s :: OnBoard(s) ==> At(p, s) == StartCell(s)
  }

  lemma {:induction false} PlacePawnsAt(p: Position, n: nat, s: Square)
    requires Shaped(p) && n <= 8 && OnBoard(s)
    ensures At(PlacePawns(p, n), s) ==
      if s.0 < n && s.1 == 1 then PawnOf(White)
      else if s.0 < n && s.1 == 6 then PawnOf(Black)
      else At(p, s)
    decreases n
  {
    if n > 0 {
      PlacePawnsAt(p, n - 1, s);
    }
  }

  lemma SetupChain(p: Position, s: Square)
    requires Shaped(p) && OnBoard(s)
    ensures At(Setup(p), s) ==
      Pair(s, [2, 5], Bishop, Pair(s, [1, 6], Knight, Pair(s, [0, 7], Rook,
        Pair(s, [3], Queen, Pair(s, [4], King, At(PlacePawns(p, 8), s))))))
  {
    var pawns := PlacePawns(p, 8);
    var kings := PlaceBoth(pawns, 4, King);
    var queens := PlaceBoth(kings, 3, Queen);
    var rooks := PlaceRooks(queens);
    var knights := PlaceMinor(rooks, 1, 6, Knight);
    var bishops := PlaceMinor(knights, 2, 5, Bishop);
    assert Setup(p) == bishops;
  }

  /** The back-rank pieces put over any earlier contents. */
  lemma BackRankChain(s: Square, base: Cell)
    requires OnBoard(s)
    ensures Pair(s, [2, 5], Bishop, Pair(s, [1, 6], Knight, Pair(s, [0, 7], Rook,
        Pair(s, [3], Queen, Pair(s, [4], King, base)))))
      == if s.1 == 0 then Fresh(White, BackRank(s.0))
         else if s.1 == 7 then Fresh(Black, BackRank(s.0))
         else base
  {
    var f := s.0;
    if s.1 != 0 && s.1 != 7 {
    } else if f == 0 || f == 7 {
      assert f in [0, 7] && f !in [2, 5] && f !in [1, 6];
    } else if f == 1 || f == 6 {
      assert f in [1, 6] && f !in [2, 5];
    } else if f == 2 || f == 5 {
      assert f in [2, 5];
    } else if f == 3 {
      assert f in [3] && f !in [0, 7] && f !in [2, 5] && f !in [1, 6];
    } else {
      assert f in [4] && f !in [3] && f !in [0, 7] && f !in [2, 5] && f !in [1, 6];
    }
  }

  /** initialize_pieces on an empty square puts there what a new game has
      there: ranks 0 and 7 hold rook, knight, bishop, queen, king, bishop,
      knight, rook; ranks 1 and 6 hold the pawns; the rest stays empty. */
  lemma SetupLayout(p: Position, s: Square)
    requires Shaped(p) && OnBoard(s) && At(p, s) == None
    ensures At(Setup(p), s) == StartCell(s)
  {
    var base := At(PlacePawns(p, 8), s);
    PlacePawnsAt(p, 8, s);
    SetupChain(p, s);
    BackRankChain(s, base);
  }

  /** On an empty board initialize_pieces builds the position of a new game. */
  lemma SetupStart(p: Position)
    requires Shaped(p) && forall s :: OnBoard(s) ==> At(p, s) == None
    ensures IsStart(Setup(p))
  {
    forall s | OnBoard(s)
      ensures At(Setup(p), s) == StartCell(s)
    {
      SetupLayout(p, s);
    }
  }

  /** A king with no king of its colour before it in scan order is the one
      find_king reports. */
  lemma KingFirst(p: Position, c: Color, s: Square)
    requires Shaped(p) && OnBoard(s) && IsKingOf(At(p, s), c)
    requires forall t :: OnBoard(t) && Index(t) < Index(s) ==> !IsKingOf(At(p, t), c)
    ensures KingSquare(p, c) == Some(s)
  {
    var r := KingSquare(p, c);
    assert r.Some?;
    IndexInjective(r.value, s);
  }
}
