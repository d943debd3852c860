/** The parts of the game view that carry engine logic: the flip between
    screen and board coordinates for the user's colour, stepping through the
    move history, and the end-of-game classification made before the bot
    moves. The view object is represented by its board and the user's
    colour. */
module BoardView {
  import opened Chess
  import opened Fen
  import opened Rules
  import opened Tiles
  import opened ChessBoard

  /** screen_to_board_coords: the board is drawn upside down for Black. */
  function ScreenToBoard(user: Color, visualFile: int, visualRank: int): (s: Square)
    ensures OnBoard((visualFile, visualRank)) <==> OnBoard(s)
  {
    if user == Black then (7 - visualFile, 7 - visualRank) else (visualFile, visualRank)
  }

  /** board_to_screen_coords */
  function BoardToScreen(user: Color, boardFile: int, boardRank: int): (s: Square)
    ensures OnBoard((boardFile, boardRank)) <==> OnBoard(s)
  {
    if user == Black then (7 - boardFile, 7 - boardRank) else (boardFile, boardRank)
  }

  /** The two conversions undo each other, in both orders, and are the
      identity for White and the half-turn for Black. */
  lemma CoordinatesInverse(user: Color, s: Square)
    ensures BoardToScreen(user, ScreenToBoard(user, s.0, s.1).0, ScreenToBoard(user, s.0, s.1).1) == s
    ensures ScreenToBoard(user, BoardToScreen(user, s.0, s.1).0, BoardToScreen(user, s.0, s.1).1) == s
    ensures user == White ==> ScreenToBoard(user, s.0, s.1) == s && BoardToScreen(user, s.0, s.1) == s
    ensures user == Black ==> ScreenToBoard(user, s.0, s.1) == (7 - s.0, 7 - s.1) == BoardToScreen(user, s.0, s.1)
  {
  }

  /** show_prev_move(): one step back in the history, unless the board
      already shows the first entry; the grid is reloaded from that entry's
      placement. */
  method ShowPrevMove(b: Board)
    requires b.Valid()
    modifies b`currentIndex, b.grid, b`Pos, b`Tiles, b`Pieces, b`materialDifferential
    ensures b.Valid() && b.history == old(b.history)
    ensures old(b.currentIndex) > 0 ==>
      b.currentIndex == old(b.currentIndex) - 1 && !b.IsCurrPos() &&
      b.Pos == Decode(b.history[b.currentIndex].fen).value && b.materialDifferential == Material(b.Pos)
    ensures old(b.currentIndex) == 0 ==> unchanged(b) && unchanged(b.grid)
  {
    if b.currentIndex > 0 {
      b.currentIndex := b.currentIndex - 1;
      var move := b.history[b.currentIndex];
      b.LoadFen(move.fen);
    }
  }

  /** show_next_move(): one step forward in the history, unless the board
      already shows the newest entry; the grid is reloaded from that entry's
      placement. */
  method ShowNextMove(b: Board)
    requires b.Valid()
    modifies b`currentIndex, b.grid, b`Pos, b`Tiles, b`Pieces, b`materialDifferential
    ensures b.Valid() && b.history == old(b.history)
    ensures old(b.currentIndex) < |b.history| - 1 ==>
      b.currentIndex == old(b.currentIndex) + 1 &&
      b.Pos == Decode(b.history[b.currentIndex].fen).value && b.materialDifferential == Material(b.Pos)
    ensures old(b.currentIndex) == |b.history| - 1 ==> unchanged(b) && unchanged(b.grid)
  {
    if b.currentIndex < |b.history| - 1 {
      b.currentIndex := b.currentIndex + 1;
      var move := b.history[b.currentIndex];
      b.LoadFen(move.fen);
    }
  }

  /** What make_bot_move decides before asking the bot for a move. */
  datatype Outcome = Checkmate | Stalemate | Draw | BotToMove

  /** The verdict on a bot without moves: none when it has no king,
      otherwise checkmate when the king's square is reached by the other
      side and stalemate when it is not. */
  ghost function StuckOutcome(gen: MoveGen, p: Position, ep: Option<Square>, bot: Color): Option<Outcome>
    requires GenOnBoard(gen) && Shaped(p)
  {
    match KingSquare(p, bot)
    case None => None
    case Some(k) => Some(if SideMove(gen, p, ep, bot, false, false, k) then Checkmate else Stalemate)
  }

  /** The decision on position p for the bot's colour: with no move for
      the bot and its (first) king found, the stuck verdict; failing that, a
      draw by insufficient material; otherwise the bot moves. */
  ghost function BotOutcome(gen: MoveGen, p: Position, ep: Option<Square>, bot: Color): Outcome
    requires GenOnBoard(gen) && Shaped(p)
  {
    var stuck := forall m :: !SideMove(gen, p, ep, bot, true, false, m);
    if stuck && StuckOutcome(gen, p, ep, bot).Some? then StuckOutcome(gen, p, ep, bot).value
    else if !HasHeavy(p) && PieceCount(p) <= 4 then Draw
    else BotToMove
  }

  /** The no-move branch of make_bot_move: the other side's moves, then
      the scan for the bot's king. */
  method StuckVerdict(b: Board, bot: Color) returns (o: Option<Outcome>)
    requires b.GridValid() && !b.checkingForChecks
    modifies b`checkingForChecks, b`Pos, b.Tiles`pieceHere, b.Pieces`pos
    ensures b.GridValid() && b.Restored()
    ensures o == StuckOutcome(b.gen, b.Pos, b.enPassantTarget, bot)
  {
    var allMoves := b.GetAllEnemyMoves(bot);
    var king := b.FindKing(bot);
    if king.Some? {
      o := Some(if king.value in allMoves then Checkmate else Stalemate);
    } else {
      o := None;
    }
  }

  /** The queries of make_bot_move: the bot's moves, the no-move branch
      when there are none, then check_draw. The board is left as it was. */
  method BotVerdict(b: Board, bot: Color) returns (o: Outcome)
    requires b.GridValid() && !b.checkingForChecks
    modifies b`checkingForChecks, b`Pos, b.Tiles`pieceHere, b.Pieces`pos
    ensures b.GridValid() && b.Restored()
    ensures o == BotOutcome(b.gen, b.Pos, b.enPassantTarget, bot)
  {
    var moveList := b.GetAllMoves(bot);
    var stuck: Option<Outcome> := None;
    if |moveList| == 0 {
      stuck := StuckVerdict(b, bot);
    } else {
      assert moveList[0] in moveList;
    }
    if stuck.Some? {
      o := stuck.value;
    } else {
      var draw := b.CheckDraw();
      o := if draw == 1 then Draw else BotToMove;
    }
  }

  /** The highlighting step of make_bot_move as written: the tiles
      grid[from.0][from.1] and grid[to.0][to.1] are marked. The board
      indexes its grid by rank first, so these are the tiles of the squares
      with file and rank swapped. */
  method HighlightBotMoveAsWritten(b: Board, from: Square, to: Square)
    requires b.GridValid() && OnBoard(from) && OnBoard(to)
    modifies b.Tiles`prev
    ensures b.GridValid()
    ensures b.TileAt(from.0, from.1).prev && b.TileAt(to.0, to.1).prev
    ensures (b.TileAt(from.0, from.1).file, b.TileAt(from.0, from.1).rank) == (from.1, from.0)
    ensures (b.TileAt(to.0, to.1).file, b.TileAt(to.0, to.1).rank) == (to.1, to.0)
  {
    assert b.TileOk(from.0, from.1) && b.TileOk(to.0, to.1);
    b.grid[from.0, from.1].PrevMove();
    b.grid[to.0, to.1].PrevMove();
  }

  /** A bot move off the board's diagonal is highlighted on the wrong
      squares: the knight move from b8 to c6, (1, 7) to (2, 5), marks the
      tiles of h2 and f3. */
  lemma TransposedHighlight(b: Board, from: Square, to: Square)
    requires b.GridValid() && OnBoard(from) && OnBoard(to)
    ensures from.0 != from.1 ==> (b.TileAt(from.0, from.1).file, b.TileAt(from.0, from.1).rank) != from
    ensures from == (1, 7) && to == (2, 5) ==>
      (b.TileAt(from.0, from.1).file, b.TileAt(from.0, from.1).rank) == (7, 1) &&
      (b.TileAt(to.0, to.1).file, b.TileAt(to.0, to.1).rank) == (5, 2)
  {
    assert b.TileOk(from.0, from.1) && b.TileOk(to.0, to.1);
  }

  /** The highlighting step of make_bot_move as intended: the tiles of the
      move's own two squares, grid[rank][file], are marked. */
  method HighlightBotMove(b: Board, from: Square, to: Square)
    requires b.GridValid() && OnBoard(from) && OnBoard(to)
    modifies b.Tiles`prev
    ensures b.GridValid()
    ensures b.TileAt(from.1, from.0).prev && b.TileAt(to.1, to.0).prev
    ensures (b.TileAt(from.1, from.0).file, b.TileAt(from.1, from.0).rank) == from
    ensures (b.TileAt(to.1, to.0).file, b.TileAt(to.1, to.0).rank) == to
  {
    assert b.TileOk(from.1, from.0) && b.TileOk(to.1, to.0);
    b.grid[from.1, from.0].PrevMove();
    b.grid[to.1, to.0].PrevMove();
  }

  /** The end of make_bot_move once the outcome is known: checkmate is
      declared with the bot's opponent as winner, stalemate for a blocked
      king or insufficient material, and otherwise the bot's move is
      highlighted. */
  method Declare(b: Board, o: Outcome, user: Color, botMove: Option<(Square, Square)>)
    requires b.GridValid()
    requires botMove.Some? ==> OnBoard(botMove.value.0) && OnBoard(botMove.value.1)
    modifies b`checkmate, b`stalemate, b`mateColor, b.Tiles`prev
    ensures b.GridValid()
    ensures b.checkmate == (old(b.checkmate) || o == Checkmate)
    ensures b.stalemate == (old(b.stalemate) || o == Stalemate || o == Draw)
    ensures b.mateColor == (if o == Checkmate then Some(user) else old(b.mateColor))
    ensures o == BotToMove && botMove.Some? ==>
      b.TileAt(botMove.value.0.1, botMove.value.0.0).prev && b.TileAt(botMove.value.1.1, botMove.value.1.0).prev
  {
    var bot := user.Opposite();
    match o {
      case Checkmate =>
        b.SetCheckmate();
        b.SetMateColor(bot.Opposite());
      case Stalemate =>
        b.SetStalemate();
      case Draw =>
        b.SetStalemate();
      case BotToMove =>
        if botMove.Some? {
          HighlightBotMove(b, botMove.value.0, botMove.value.1);
        }
    }
  }

  /** make_bot_move(): nothing happens unless the board shows the newest
      position and the game is not over. Otherwise the outcome for the
      bot's colour is declared; the bot's move is given here as botMove,
      since the bot itself is not part of this model. */
  method MakeBotMove(b: Board, user: Color, botMove: Option<(Square, Square)>)
    requires b.Valid()
    requires botMove.Some? ==> OnBoard(botMove.value.0) && OnBoard(botMove.value.1)
    modifies b`checkmate, b`stalemate, b`mateColor
    modifies b`checkingForChecks, b`Pos, b.Tiles`pieceHere, b.Pieces`pos, b.Tiles`prev
    ensures b.Valid() && b.Pos == old(b.Pos) && b.history == old(b.history)
    ensures !old(b.IsCurrPos()) || old(b.checkmate) || old(b.stalemate) ==>
      unchanged(b) && unchanged(old(b.Tiles)) && unchanged(old(b.Pieces))
    ensures old(b.IsCurrPos()) && !old(b.checkmate) && !old(b.stalemate) ==>
      var o := BotOutcome(b.gen, old(b.Pos), old(b.enPassantTarget), user.Opposite());
      (b.checkmate <==> o == Checkmate) &&
      (b.stalemate <==> o == Stalemate || o == Draw) &&
      b.mateColor == (if o == Checkmate then Some(user) else old(b.mateColor))
  {
    var bot := user.Opposite();
    if !b.IsCurrPos() || b.checkmate || b.stalemate {
      return;
    }
    var o := BotVerdict(b, bot);
    Declare(b, o, user, botMove);
  }
}
