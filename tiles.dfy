/** A square of the board and the piece objects that stand on it. */
module Tiles {
  import opened Chess

  /** A piece object as the board uses it: a fixed colour and kind, the
      square it believes it stands on, and whether it has moved. The pieces'
      own movement rules are not part of this model. */
  class Piece {
    const color: Color
    const kind: Kind
    var pos: Square
    var hasMoved: bool

    constructor (color: Color, kind: Kind, pos: Square)
      ensures this.color == color && this.kind == kind && this.pos == pos && !hasMoved
    {
      this.color := color;
      this.kind := kind;
      this.pos := pos;
      hasMoved := false;
    }

    /** What the board's value view records of this piece. */
    function View(): PieceView
      reads this`hasMoved
    {
      PieceView(color, kind, hasMoved)
    }
  }

  /** One square: fixed coordinates and shade, an optional occupant, and the
      three display markers. */
  class Tile {
    const file: int
    const rank: int
    const isLight: bool
    var pieceHere: Piece?
    var highlighted: bool
    var prev: bool
    var clicked: bool

    /** A new tile is empty and carries no marker. */
    constructor (file: int, rank: int, isLight: bool)
      ensures this.file == file && this.rank == rank && this.isLight == isLight
      ensures pieceHere == null && !highlighted && !prev && !clicked
    {
      this.file := file;
      this.rank := rank;
      this.isLight := isLight;
      pieceHere := null;
      highlighted := false;
      prev := false;
      clicked := false;
    }

    function HasPiece(): (b: bool)
      reads this
      ensures b <==> pieceHere != null
    {
      pieceHere != null
    }

    /** There is an occupant and it has colour c. */
    function IsSameColor(c: Color): (b: bool)
      reads this, pieceHere
      ensures b <==> HasPiece() && !IsOtherColor(c)
    {
      pieceHere != null && pieceHere.color == c
    }

    /** There is an occupant and it does not have colour c. */
    function IsOtherColor(c: Color): (b: bool)
      reads this, pieceHere
      ensures b <==> HasPiece() && pieceHere.color == c.Opposite()
    {
      pieceHere != null && pieceHere.color != c
    }

    function GetPieceHere(): (p: Piece?)
      reads this
      ensures p == pieceHere
    {
      pieceHere
    }

    method HighlightMove()
      modifies this`highlighted
      ensures highlighted
    {
      highlighted := true;
    }

    method ClearHighlight()
      modifies this`highlighted
      ensures !highlighted
    {
      highlighted := false;
    }

    method PrevMove()
      modifies this`prev
      ensures prev
    {
      prev := true;
    }

    method ClearPrev()
      modifies this`prev
      ensures !prev
    {
      prev := false;
    }

    method Click()
      modifies this`clicked
      ensures clicked
    {
      clicked := true;
    }

    method ClearClick()
      modifies this`clicked
      ensures !clicked
    {
      clicked := false;
    }
  }

  /** On an empty tile neither colour test holds; on an occupied one exactly
      one of them does, whatever the colour asked about. */
  lemma ColorTests(t: Tile, c: Color)
    ensures t.pieceHere == null ==> !t.IsSameColor(c) && !t.IsOtherColor(c)
    ensures t.pieceHere != null ==> t.IsSameColor(c) != t.IsOtherColor(c)
    ensures t.HasPiece() <==> t.IsSameColor(c) || t.IsOtherColor(c)
  {
  }
}
