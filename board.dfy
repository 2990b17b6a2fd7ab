/** `BoardVisualizer`: an 8x8 board of coloured cells stored row by row in one array. */
module Board {

  /** The colours the decoder ever paints, in place of Unity's RGBA `Color`. */
  datatype Colour = Gray | Red | Green | Blue | Purple

  const Side: int := 8

  predicate OnBoard(x: int, y: int) {
    0 <= x < Side && 0 <= y < Side
  }

  /** Row-major position of square (x, y). */
  function CellIndex(x: int, y: int): (i: int)
    requires OnBoard(x, y)
    ensures 0 <= i < Side * Side
    ensures i % Side == x && i / Side == y
  {
    y * Side + x
  }

  /** Distinct squares occupy distinct cells, and every cell 0..63 is some square. */
  lemma CellIndexBijective(x1: int, y1: int, x2: int, y2: int, i: int)
    requires OnBoard(x1, y1) && OnBoard(x2, y2) && 0 <= i < Side * Side
    ensures CellIndex(x1, y1) == CellIndex(x2, y2) ==> x1 == x2 && y1 == y2
    ensures OnBoard(i % Side, i / Side) && CellIndex(i % Side, i / Side) == i
  {
  }

  /** The cells after `SetCellColor(x, y, c)`. */
  function Painted(cells: seq<Colour>, x: int, y: int, c: Colour): (r: seq<Colour>)
    ensures |r| == |cells|
    ensures forall i :: 0 <= i < |r| ==>
              r[i] == if OnBoard(x, y) && i == CellIndex(x, y) then c else cells[i]
  {
    if OnBoard(x, y) && CellIndex(x, y) < |cells| then cells[CellIndex(x, y) := c] else cells
  }

  /** The cells after `ResetBoard()`. */
  function Cleared(cells: seq<Colour>): (r: seq<Colour>)
    ensures |r| == |cells|
    ensures forall i :: 0 <= i < |r| ==> r[i] == Gray
  {
    seq(|cells|, _ => Gray)
  }

  /** A square off the board leaves every cell as it was. */
  lemma PaintOffBoard(cells: seq<Colour>, x: int, y: int, c: Colour)
    requires !OnBoard(x, y)
    ensures Painted(cells, x, y, c) == cells
  {
  }

  /** A square on the board sets exactly its own cell, when the array reaches that far,
      and no other. */
  lemma PaintOnBoard(cells: seq<Colour>, x: int, y: int, c: Colour, j: int)
    requires OnBoard(x, y) && 0 <= j < |cells|
    ensures Painted(cells, x, y, c)[j] == if j == CellIndex(x, y) then c else cells[j]
  {
  }

  /** Writes to two different squares do not interfere: their order does not matter. */
  lemma PaintCommutes(cells: seq<Colour>, x1: int, y1: int, c1: Colour, x2: int, y2: int, c2: Colour)
    requires (x1, y1) != (x2, y2)
    ensures Painted(Painted(cells, x1, y1, c1), x2, y2, c2)
         == Painted(Painted(cells, x2, y2, c2), x1, y1, c1)
  {
    if OnBoard(x1, y1) && OnBoard(x2, y2) {
      CellIndexBijective(x1, y1, x2, y2, 0);
    }
  }

  /** A second write to the same square overrides the first. */
  lemma PaintOverrides(cells: seq<Colour>, x: int, y: int, c1: Colour, c2: Colour)
    ensures Painted(Painted(cells, x, y, c1), x, y, c2) == Painted(cells, x, y, c2)
  {
  }

  /** Resetting twice is resetting once, and a reset erases any painting before it. */
  lemma ClearedIdempotent(cells: seq<Colour>, x: int, y: int, c: Colour)
    ensures Cleared(Cleared(cells)) == Cleared(cells)
    ensures Cleared(Painted(cells, x, y, c)) == Cleared(cells)
  {
  }

  class BoardVisualizer {
    /** `cellImages`, reduced to the colour of each image. */
    const cellImages: array<Colour>

    constructor (images: array<Colour>)
      ensures cellImages == images
    {
      cellImages := images;
    }

    method SetCellColor(x: int, y: int, color: Colour)
      modifies cellImages
      ensures cellImages[..] == Painted(old(cellImages[..]), x, y, color)
    {
      if x < 0 || x >= 8 || y < 0 || y >= 8 {
        return;
      }
      var index := y * 8 + x;
      if index >= 0 && index < cellImages.Length {
        cellImages[index] := color;
      }
    }

    method ResetBoard()
      modifies cellImages
      ensures cellImages[..] == Cleared(old(cellImages[..]))
    {
      var defaultColor := Gray;
      for i := 0 to cellImages.Length
        invariant forall j :: 0 <= j < i ==> cellImages[j] == defaultColor
      {
        cellImages[i] := defaultColor;
      }
    }
  }
}
