/**
 * The player's sprite sheets: the facing directions and controller states,
 * the four-frame index tables of the walking and attacking atlases, and the
 * rectangles the attacking atlas is cut into.
 */
module Sprites {

  datatype Direction = Up | Down | Left | Right

  datatype PlayerState = Idle | Walking | Attacking

  /** Which texture atlas the sprite draws from. */
  datatype Atlas = WalkAtlas | AttackAtlas

  const WalkDownIdx: seq<nat> := [0, 1, 2, 3]
  const WalkRightIdx: seq<nat> := [4, 5, 6, 7]
  const WalkUpIdx: seq<nat> := [8, 9, 10, 11]
  const WalkLeftIdx: seq<nat> := [12, 13, 14, 15]

  const AttackDownIdx: seq<nat> := [0, 1, 2, 3]
  const AttackUpIdx: seq<nat> := [4, 5, 6, 7]
  const AttackRightIdx: seq<nat> := [8, 9, 10, 11]
  const AttackLeftIdx: seq<nat> := [12, 13, 14, 15]

  /** Four consecutive frame indices of a 16-frame atlas, starting on a row. */
  predicate IsRun(table: seq<nat>) {
    && |table| == 4
    && table[0] % 4 == 0
    && table[0] + 3 < 16
    && forall i :: 0 <= i < 4 ==> table[i] == table[0] + i
  }

  /** Idle and Walking draw from the walking atlas, Attacking from the attacking one. */
  function AtlasFor(s: PlayerState): (a: Atlas)
    ensures a == AttackAtlas <==> s == Attacking
  {
    match s
    case Idle | Walking => WalkAtlas
    case Attacking => AttackAtlas
  }

  function WalkTable(d: Direction): seq<nat> {
    if d == Up then WalkUpIdx
    else if d == Down then WalkDownIdx
    else if d == Left then WalkLeftIdx
    else WalkRightIdx
  }

  function AttackTable(d: Direction): seq<nat> {
    if d == Up then AttackUpIdx
    else if d == Down then AttackDownIdx
    else if d == Left then AttackLeftIdx
    else AttackRightIdx
  }

  /** The frame table the animation cycles through for a state and a facing direction. */
  function FrameTable(s: PlayerState, d: Direction): (r: seq<nat>)
    ensures IsRun(r)
    ensures s != Attacking ==> r == WalkTable(d)
    ensures s == Attacking ==> r == AttackTable(d)
  {
    match s
    case Idle | Walking => WalkTable(d)
    case Attacking => AttackTable(d)
  }

  /** The direction whose walking table holds frame `n`: there is exactly one. */
  function WalkDirectionOf(n: nat): (d: Direction)
    requires n < 16
    ensures n in WalkTable(d)
    ensures forall e :: n in WalkTable(e) ==> e == d
  {
    if n < 4 then Down else if n < 8 then Right else if n < 12 then Up else Left
  }

  /** The direction whose attacking table holds frame `n`: there is exactly one. */
  function AttackDirectionOf(n: nat): (d: Direction)
    requires n < 16
    ensures n in AttackTable(d)
    ensures forall e :: n in AttackTable(e) ==> e == d
  {
    if n < 4 then Down else if n < 8 then Up else if n < 12 then Right else Left
  }

  /** The tables of one atlas are pairwise disjoint. */
  lemma TablesDisjoint(s: PlayerState, d1: Direction, d2: Direction, n: nat)
    requires d1 != d2 && n in FrameTable(s, d1)
    ensures n !in FrameTable(s, d2)
  {
    if s == Attacking {
      assert AttackDirectionOf(n) == d1;
    } else {
      assert WalkDirectionOf(n) == d1;
    }
  }

  /** Frame `n` of an atlas sits at the end of its table exactly when `n % 4 == 3`. */
  predicate IsLastEntry(n: nat) {
    exists s: PlayerState, d: Direction :: n == FrameTable(s, d)[3]
  }

  lemma LastEntries(n: nat)
    requires n < 16
    ensures IsLastEntry(n) <==> n % 4 == 3
  {
    if n % 4 == 3 {
      assert n == FrameTable(Walking, WalkDirectionOf(n))[3];
    }
  }

  datatype Rect = Rect(minX: int, minY: int, maxX: int, maxY: int)

  const CellSize := 32
  const AttackSheetTop := 128
  const SheetWidth := 272
  const SheetHeight := 256

  /** The 32 by 32 cell of the sheet that frame `i` of the attacking atlas shows: row-major, four per row. */
  function AttackCell(i: nat): Rect {
    var x := CellSize * (i % 4);
    var y := AttackSheetTop + CellSize * (i / 4);
    Rect(x, y, x + CellSize, y + CellSize)
  }

  lemma {:induction false} CellOfRowColumn(x: nat, y: nat)
    requires x < 4
    ensures AttackCell(4 * y + x) == Rect(x * 32, 128 + y * 32, x * 32 + 32, 128 + y * 32 + 32)
  {
    assert (4 * y + x) % 4 == x && (4 * y + x) / 4 == y;
  }

  /** Cuts the attacking atlas out of the sheet, one row of four cells at a time. */
  method AttackAtlasRects() returns (rects: seq<Rect>)
    ensures |rects| == 16
    ensures forall i :: 0 <= i < 16 ==> rects[i] == AttackCell(i)
  {
    rects := [];
    for y := 0 to 4
      invariant |rects| == 4 * y
      invariant forall i :: 0 <= i < |rects| ==> rects[i] == AttackCell(i)
    {
      for x := 0 to 4
        invariant |rects| == 4 * y + x
        invariant forall i :: 0 <= i < |rects| ==> rects[i] == AttackCell(i)
      {
        var minX := x * 32;
        var minY := 128 + y * 32;
        CellOfRowColumn(x, y);
        rects := rects + [Rect(minX, minY, minX + 32, minY + 32)];
      }
    }
  }

  /** Every attacking frame lies inside the 272 by 256 sheet, and each attacking table is one row of it. */
  lemma AttackCellsFit(d: Direction, k: nat)
    requires k < 4
    ensures var c := AttackCell(AttackTable(d)[k]);
      0 <= c.minX && c.maxX <= SheetWidth && AttackSheetTop <= c.minY && c.maxY <= SheetHeight
    ensures AttackCell(AttackTable(d)[k]).minX == CellSize * k
    ensures AttackCell(AttackTable(d)[k]).minY == AttackCell(AttackTable(d)[0]).minY
  {
    var t := AttackTable(d);
    assert IsRun(FrameTable(Attacking, d));
    CellOfRowColumn(k, t[0] / 4);
    CellOfRowColumn(0, t[0] / 4);
  }
}
