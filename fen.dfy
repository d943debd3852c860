/** The piece-placement field of Forsyth-Edwards Notation (section 16.1.3.1
    of the PGN standard) as the board writes it (board_state without an
    active colour) and reads it back (load_fen). */
module Fen {
  import opened Chess

  /** The letter written for a piece: its kind's symbol, upper case for White.
      load_fen reads it back as the same colour and kind, never as a digit. */
  function Letter(v: PieceView): (ch: char)
    ensures ('A' <= ch <= 'Z') <==> v.color == White
    ensures DigitValue(ch) == None && PieceOf(ch) == Some((v.color, v.kind))
  {
    var white := v.color == White;
    match v.kind
    case King => if white then 'K' else 'k'
    case Queen => if white then 'Q' else 'q'
    case Rook => if white then 'R' else 'r'
    case Bishop => if white then 'B' else 'b'
    case Knight => if white then 'N' else 'n'
    case Pawn => if white then 'P' else 'p'
  }

  /** str(n) for a single-digit count. */
  function DigitChar(n: nat): (ch: char)
    requires n <= 9
    ensures DigitValue(ch) == Some(n)
  {
    ('0' as int + n) as char
  }

  /** What is written for a run of `run` empty files (nothing for no run). */
  function Count(run: nat): string
    requires run <= 9
  {
    if run == 0 then "" else [DigitChar(run)]
  }

  /** Encoding of the rest of a rank, `run` empty files already pending:
      a run is written just before the next piece, or at the end of the rank. */
  function EncodeRun(cells: seq<Cell>, run: nat): (s: string)
    requires run + |cells| <= 8
    ensures forall i :: 0 <= i < |s| ==> s[i] != '/'
    decreases |cells|
  {
    if cells == [] then Count(run)
    else match cells[0]
      case None => EncodeRun(cells[1..], run + 1)
      case Some(v) => Count(run) + [Letter(v)] + EncodeRun(cells[1..], 0)
  }

  /** One file of a rank: an empty file lengthens the pending run, a piece
      writes the pending run and then its letter. */
  lemma EncodeRunStep(cells: seq<Cell>, run: nat)
    requires cells != [] && run + |cells| <= 8
    ensures cells[0].None? ==> EncodeRun(cells, run) == EncodeRun(cells[1..], run + 1)
    ensures cells[0].None? && |cells| == 1 ==> EncodeRun(cells, run) == [DigitChar(run + 1)]
    ensures cells[0].Some? ==> EncodeRun(cells, run) == Count(run) + [Letter(cells[0].value)] + EncodeRun(cells[1..], 0)
  {
  }

  function EncodeRow(row: seq<Cell>): string
    requires |row| == 8
  {
    EncodeRun(row, 0)
  }

  /** The eight rank strings, rank 8 first. */
  function Rows(p: Position): (rows: seq<string>)
    requires Shaped(p)
    ensures |rows| == 8
  {
    seq(8, i requires 0 <= i < 8 => EncodeRow(p[7 - i]))
  }

  function Join(rows: seq<string>): string
    requires |rows| > 0
    decreases |rows|
  {
    if |rows| == 1 then rows[0] else rows[0] + "/" + Join(rows[1..])
  }

  /** board_state() with no active colour. */
  function Encode(p: Position): string
    requires Shaped(p)
  {
    Join(Rows(p))
  }

  /** char.isdigit() followed by int(char), for ASCII digits. */
  function DigitValue(ch: char): Option<nat> {
    if '0' <= ch <= '9' then Some(ch as int - '0' as int) else None
  }

  /** The colour (from the letter's case) and the kind (from the lookup of
      the lower-cased letter) of a piece letter; None where the lookup fails.
      Besides the twelve ASCII letters, the Kelvin sign U+212A is upper case
      and lower-cases to 'k', so it reads as a White king. */
  function PieceOf(ch: char): Option<(Color, Kind)> {
    match ch
    case 'K' => Some((White, King))
    case '\U{212A}' => Some((White, King))
    case 'Q' => Some((White, Queen))
    case 'R' => Some((White, Rook))
    case 'B' => Some((White, Bishop))
    case 'N' => Some((White, Knight))
    case 'P' => Some((White, Pawn))
    case 'k' => Some((Black, King))
    case 'q' => Some((Black, Queen))
    case 'r' => Some((Black, Rook))
    case 'b' => Some((Black, Bishop))
    case 'n' => Some((Black, Knight))
    case 'p' => Some((Black, Pawn))
    case _ => None
  }

  /** The piece load_fen creates on a rank: a pawn off its home rank is
      marked as having moved, every other new piece is not. */
  function Loaded(c: Color, k: Kind, rank: int): PieceView {
    PieceView(c, k, k == Pawn && ((c == White && rank != 1) || (c == Black && rank != 6)))
  }

  /** Reads the rest of one rank string, the next piece going to file f.
      None where load_fen would fail: an unknown letter, or a piece past
      file 7. */
  function ParseRow(s: string, f: nat, row: seq<Cell>, rank: int): (r: Option<seq<Cell>>)
    requires |row| == 8
    ensures r.Some? ==> |r.value| == 8
    decreases |s|
  {
    if s == [] then Some(row)
    else match DigitValue(s[0])
      case Some(d) => ParseRow(s[1..], f + d, row, rank)
      case None =>
        match PieceOf(s[0])
        case None => None
        case Some(ck) =>
          if f < 8 then ParseRow(s[1..], f + 1, row[f := Some(Loaded(ck.0, ck.1, rank))], rank)
          else None
  }

  predicate AllDigits(s: string) {
    forall i :: 0 <= i < |s| ==> DigitValue(s[i]).Some?
  }

  /** str.split('/') */
  function Split(s: string): (parts: seq<string>)
    ensures |parts| >= 1
    decreases |s|
  {
    if s == [] then [""]
    else
      var rest := Split(s[1..]);
      if s[0] == '/' then [""] + rest else [[s[0]] + rest[0]] + rest[1..]
  }

  /** Places the rank strings from the last one up (rank index k reads
      rows[|rows| - 1 - k]); a rank index past 7 is harmless only while its
      string holds no piece. */
  function DecodeFrom(rows: seq<string>, k: nat, acc: Position): (r: Option<Position>)
    requires Shaped(acc) && k <= |rows|
    ensures r.Some? ==> Shaped(r.value)
    decreases |rows| - k
  {
    if k == |rows| then Some(acc)
    else
      var row := rows[|rows| - 1 - k];
      if k < 8 then
        match ParseRow(row, 0, acc[k], k)
        case None => None
        case Some(r) => DecodeFrom(rows, k + 1, acc[k := r])
      else if AllDigits(row) then DecodeFrom(rows, k + 1, acc)
      else None
  }

  /** One step of DecodeFrom that succeeds: the rank string read at step k
      parses (k < 8) or is all digits (k >= 8), and decoding goes on from
      the updated position. */
  lemma DecodeStep(rows: seq<string>, k: nat, acc: Position)
    requires Shaped(acc) && k < |rows| && DecodeFrom(rows, k, acc).Some?
    ensures k < 8 ==> ParseRow(rows[|rows| - 1 - k], 0, acc[k], k).Some?
    ensures k < 8 ==> DecodeFrom(rows, k, acc) == DecodeFrom(rows, k + 1, acc[k := ParseRow(rows[|rows| - 1 - k], 0, acc[k], k).value])
    ensures k >= 8 ==> AllDigits(rows[|rows| - 1 - k]) && DecodeFrom(rows, k, acc) == DecodeFrom(rows, k + 1, acc)
  {
  }

  /** load_fen(fen) on freshly rebuilt (empty) tiles. */
  function Decode(fen: string): (r: Option<Position>)
    ensures r.Some? ==> Shaped(r.value)
  {
    DecodeFrom(Split(fen), 0, Empty())
  }

  function ReloadCell(cell: Cell, rank: int): Cell {
    match cell
    case None => None
    case Some(v) => Some(Loaded(v.color, v.kind, rank))
  }

  /** A rank as load_fen rebuilds it: same colours and kinds, has_moved
      recomputed. */
  function ReloadRow(cells: seq<Cell>, rank: int): (r: seq<Cell>)
    ensures |r| == |cells|
    ensures forall i :: 0 <= i < |cells| ==> r[i] == ReloadCell(cells[i], rank)
    decreases |cells|
  {
    if cells == [] then [] else [ReloadCell(cells[0], rank)] + ReloadRow(cells[1..], rank)
  }

  function Reload(p: Position): (q: Position)
    requires Shaped(p)
    ensures Shaped(q)
    ensures forall r, f :: 0 <= r < 8 && 0 <= f < 8 ==> q[r][f] == ReloadCell(p[r][f], r)
  {
    seq(8, r requires 0 <= r < 8 => ReloadRow(p[r], r))
  }

  /** Total number of files a rank string covers: digits count their value,
      every other character one file. */
  function Width(s: string): int
    decreases |s|
  {
    if s == [] then 0
    else (match DigitValue(s[0]) case Some(d) => d case None => 1) + Width(s[1..])
  }

  lemma {:induction false} WidthAppend(a: string, b: string)
    ensures Width(a + b) == Width(a) + Width(b)
    decreases |a|
  {
    if a != [] {
      assert (a + b)[0] == a[0];
      assert (a + b)[1..] == a[1..] + b;
      WidthAppend(a[1..], b);
    } else {
      assert a + b == b;
    }
  }

  /** Every rank string written covers the pending run plus the rest of the
      rank. */
  lemma {:induction false} EncodeRunWidth(cells: seq<Cell>, run: nat)
    requires run + |cells| <= 8
    ensures Width(EncodeRun(cells, run)) == run + |cells|
    decreases |cells|
  {
    if cells == [] {
      if run > 0 {
        assert Count(run)[1..] == [];
      }
    } else {
      match cells[0]
      case None =>
        EncodeRunWidth(cells[1..], run + 1);
      case Some(v) =>
        EncodeRunWidth(cells[1..], 0);
        WidthAppend(Count(run) + [Letter(v)], EncodeRun(cells[1..], 0));
        WidthAppend(Count(run), [Letter(v)]);
        if run > 0 {
          assert Count(run)[1..] == [];
        }
        assert [Letter(v)][1..] == [];
    }
  }

  lemma ParseDigit(n: nat, rest: string, f: nat, acc: seq<Cell>, rank: int)
    requires |acc| == 8 && 1 <= n <= 9
    ensures ParseRow([DigitChar(n)] + rest, f, acc, rank) == ParseRow(rest, f + n, acc, rank)
  {
    var s := [DigitChar(n)] + rest;
    assert s[0] == DigitChar(n) && s[1..] == rest;
  }

  lemma ParseLetter(v: PieceView, rest: string, f: nat, acc: seq<Cell>, rank: int)
    requires |acc| == 8 && f < 8
    ensures ParseRow([Letter(v)] + rest, f, acc, rank)
         == ParseRow(rest, f + 1, acc[f := Some(Loaded(v.color, v.kind, rank))], rank)
  {
    var s := [Letter(v)] + rest;
    assert s[0] == Letter(v) && s[1..] == rest;
  }

  /** Reading back the encoding of the rest of a rank, with `run` empty files
      pending and the next file f, fills the rank with the same colours and
      kinds. */
  lemma {:induction false} ParseEncodeRun(cells: seq<Cell>, run: nat, f: nat, acc: seq<Cell>, rank: int)
    requires |acc| == 8 && f + run + |cells| == 8
    requires forall j :: f <= j < 8 ==> acc[j] == None
    ensures ParseRow(EncodeRun(cells, run), f, acc, rank) == Some(acc[..f + run] + ReloadRow(cells, rank))
    decreases |cells|
  {
    if cells == [] {
      assert ReloadRow(cells, rank) == [];
      assert acc[..f + run] + [] == acc;
      if run > 0 {
        ParseDigit(run, [], f, acc, rank);
        assert [DigitChar(run)] + [] == [DigitChar(run)];
        assert EncodeRun(cells, run) == [DigitChar(run)];
      } else {
        assert EncodeRun(cells, run) == [];
      }
    } else if cells[0].None? {
      ParseEncodeRunEmpty(cells, run, f, acc, rank);
    } else {
      ParseEncodeRunPiece(cells, run, f, acc, rank);
    }
  }

  lemma PrefixStep(acc: seq<Cell>, k: nat, tail: seq<Cell>)
    requires k < |acc| && acc[k] == None
    ensures acc[..k + 1] + tail == acc[..k] + ([None] + tail)
  {
    assert acc[..k + 1] == acc[..k] + [None];
  }

  lemma {:induction false} ParseEncodeRunEmpty(cells: seq<Cell>, run: nat, f: nat, acc: seq<Cell>, rank: int)
    requires |acc| == 8 && f + run + |cells| == 8
    requires forall j :: f <= j < 8 ==> acc[j] == None
    requires cells != [] && cells[0].None?
    ensures ParseRow(EncodeRun(cells, run), f, acc, rank) == Some(acc[..f + run] + ReloadRow(cells, rank))
    decreases |cells|, 0
  {
    assert EncodeRun(cells, run) == EncodeRun(cells[1..], run + 1);
    ParseEncodeRun(cells[1..], run + 1, f, acc, rank);
    var k := f + run;
    var tail := ReloadRow(cells[1..], rank);
    assert ReloadRow(cells, rank) == [None] + tail;
    PrefixStep(acc, k, tail);
  }

  lemma {:induction false} ParseEncodeRunPiece(cells: seq<Cell>, run: nat, f: nat, acc: seq<Cell>, rank: int)
    requires |acc| == 8 && f + run + |cells| == 8
    requires forall j :: f <= j < 8 ==> acc[j] == None
    requires cells != [] && cells[0].Some?
    ensures ParseRow(EncodeRun(cells, run), f, acc, rank) == Some(acc[..f + run] + ReloadRow(cells, rank))
    decreases |cells|, 0
  {
    var v := cells[0].value;
    var rest := EncodeRun(cells[1..], 0);
    var placed := Some(Loaded(v.color, v.kind, rank));
    var acc' := acc[f + run := placed];
    ParseEncodeRun(cells[1..], 0, f + run + 1, acc', rank);
    var tail := [Letter(v)] + rest;
    ParseLetter(v, rest, f + run, acc, rank);
    if run > 0 {
      ParseDigit(run, tail, f, acc, rank);
      assert EncodeRun(cells, run) == [DigitChar(run)] + tail;
    } else {
      assert EncodeRun(cells, run) == tail;
    }
    assert ReloadRow(cells, rank) == [placed] + ReloadRow(cells[1..], rank);
    PlaceStep(acc, f + run, placed, ReloadRow(cells[1..], rank));
  }

  lemma PlaceStep(acc: seq<Cell>, k: nat, x: Cell, tail: seq<Cell>)
    requires k < |acc|
    ensures acc[k := x][..k + 1] + tail == acc[..k] + ([x] + tail)
  {
    assert acc[k := x][..k + 1] == acc[..k] + [x];
  }

  lemma EncodeRowRoundTrip(row: seq<Cell>, rank: int)
    requires |row| == 8
    ensures ParseRow(EncodeRow(row), 0, EmptyRow(), rank) == Some(ReloadRow(row, rank))
  {
    ParseEncodeRun(row, 0, 0, EmptyRow(), rank);
    assert EmptyRow()[..0] + ReloadRow(row, rank) == ReloadRow(row, rank);
  }

  lemma {:induction false} SplitPrefix(a: string, rest: string)
    requires forall i :: 0 <= i < |a| ==> a[i] != '/'
    ensures Split(a + rest) == [a + Split(rest)[0]] + Split(rest)[1..]
    decreases |a|
  {
    if a == [] {
      assert a + rest == rest;
      var parts := Split(rest);
      assert a + parts[0] == parts[0];
      assert parts == [parts[0]] + parts[1..];
    } else {
      SplitPrefix(a[1..], rest);
      assert (a + rest)[0] == a[0];
      assert (a + rest)[1..] == a[1..] + rest;
      assert [a[0]] + (a[1..] + Split(rest)[0]) == a + Split(rest)[0];
    }
  }

  /** Splitting at '/' undoes joining with '/' when no part holds one. */
  lemma {:induction false} SplitJoin(rows: seq<string>)
    requires |rows| > 0
    requires forall i, j :: 0 <= i < |rows| && 0 <= j < |rows[i]| ==> rows[i][j] != '/'
    ensures Split(Join(rows)) == rows
    decreases |rows|
  {
    if |rows| == 1 {
      SplitPrefix(rows[0], "");
      assert rows[0] + "" == rows[0];
    } else {
      SplitJoin(rows[1..]);
      var joined := Join(rows[1..]);
      var slashed := "/" + joined;
      assert slashed[0] == '/' && slashed[1..] == joined;
      SplitPrefix(rows[0], slashed);
      assert rows[0] + "/" + joined == rows[0] + slashed;
      assert rows[0] + "" == rows[0];
      assert rows == [rows[0]] + rows[1..];
    }
  }

  lemma {:induction false} DecodeRows(p: Position, k: nat, acc: Position)
    requires Shaped(p) && Shaped(acc) && k <= 8
    requires forall j :: 0 <= j < k ==> acc[j] == ReloadRow(p[j], j)
    requires forall j :: k <= j < 8 ==> acc[j] == EmptyRow()
    ensures DecodeFrom(Rows(p), k, acc) == Some(Reload(p))
    decreases 8 - k
  {
    if k == 8 {
      assert acc == Reload(p);
    } else {
      assert Rows(p)[8 - 1 - k] == EncodeRow(p[k]);
      EncodeRowRoundTrip(p[k], k);
      DecodeRows(p, k + 1, acc[k := ReloadRow(p[k], k)]);
    }
  }

  /** The written placement splits into exactly eight rank strings, rank 8
      first, and each covers exactly eight files. */
  lemma EncodeShape(p: Position)
    requires Shaped(p)
    ensures Split(Encode(p)) == Rows(p)
    ensures forall i :: 0 <= i < 8 ==> Rows(p)[i] == EncodeRow(p[7 - i]) && Width(Rows(p)[i]) == 8
  {
    SplitJoin(Rows(p));
    forall i | 0 <= i < 8
      ensures Width(Rows(p)[i]) == 8
    {
      EncodeRunWidth(p[7 - i], 0);
    }
  }

  /** load_fen(board_state()) rebuilds every square with the same colour and
      kind, leaves the empty squares empty, and marks has_moved only on pawns
      off their home rank. */
  lemma RoundTrip(p: Position)
    requires Shaped(p)
    ensures Decode(Encode(p)) == Some(Reload(p))
  {
    SplitJoin(Rows(p));
    DecodeRows(p, 0, Empty());
  }

  /** The round trip square by square. */
  lemma RoundTripSquares(p: Position, s: Square)
    requires Shaped(p) && OnBoard(s)
    ensures Decode(Encode(p)).Some?
    ensures At(Decode(Encode(p)).value, s).None? <==> At(p, s).None?
    ensures At(p, s).Some? ==>
      At(Decode(Encode(p)).value, s).value.color == At(p, s).value.color &&
      At(Decode(Encode(p)).value, s).value.kind == At(p, s).value.kind
  {
    RoundTrip(p);
  }

  /** Joining one more part appends a '/' and the part. */
  lemma {:induction false} JoinSnoc(rows: seq<string>, x: string)
    requires |rows| > 0
    ensures Join(rows + [x]) == Join(rows) + "/" + x
    decreases |rows|
  {
    if |rows| == 1 {
      assert (rows + [x])[1..] == [x];
    } else {
      JoinSnoc(rows[1..], x);
      assert (rows + [x])[1..] == rows[1..] + [x];
    }
  }
}
