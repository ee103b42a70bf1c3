/**
 * The resource-proximity grid: one flag per tile, set on the tiles around
 * every mineral field and every vespene geyser.  Around a resource the
 * marked region is a square with its four corner tiles left out.
 */
module Proximity {
  import opened Common

  /** Half-widths of the marked squares: 7 x 7 around a mineral tile, 9 x 9 around a geyser. */
  const MineralRadius: nat := 3
  const GeyserRadius: nat := 4

  /** Tile (a, b) lies in the (2r+1) x (2r+1) square centred on (cx, cy), and is not one of its corners. */
  predicate InCutSquare(cx: int, cy: int, r: nat, a: int, b: int)
  {
    IntAbs(a - cx) <= r && IntAbs(b - cy) <= r && !(IntAbs(a - cx) == r && IntAbs(b - cy) == r)
  }

  /**
   * A mineral field covers two cut squares: one centred on its tile and one
   * centred a tile to the left (a field is two tiles wide).
   */
  predicate MineralCovers(res: Resource, a: int, b: int)
  {
    res.kind == Mineral
    && (InCutSquare(res.tile.x, res.tile.y, MineralRadius, a, b)
        || InCutSquare(res.tile.x - 1, res.tile.y, MineralRadius, a, b))
  }

  predicate GeyserCovers(res: Resource, a: int, b: int)
  {
    res.kind == Geyser && InCutSquare(res.tile.x, res.tile.y, GeyserRadius, a, b)
  }

  /** Some mineral of `rs` covers (a, b). */
  predicate MineralsCover(rs: seq<Resource>, a: int, b: int)
    decreases |rs|
  {
    |rs| > 0 && (MineralsCover(rs[..|rs| - 1], a, b) || MineralCovers(rs[|rs| - 1], a, b))
  }

  /** Some geyser of `rs` covers (a, b). */
  predicate GeysersCover(rs: seq<Resource>, a: int, b: int)
    decreases |rs|
  {
    |rs| > 0 && (GeysersCover(rs[..|rs| - 1], a, b) || GeyserCovers(rs[|rs| - 1], a, b))
  }

  /** The grid's final value at (a, b): near some mineral or some geyser of the neutral units. */
  predicate NearResource(rs: seq<Resource>, a: int, b: int)
  {
    MineralsCover(rs, a, b) || GeysersCover(rs, a, b)
  }

  /** Every square drawn around a resource of `rs` stays inside a `width` x `height` grid. */
  predicate SquaresInGrid(rs: seq<Resource>, width: nat, height: nat)
  {
    forall k :: 0 <= k < |rs| ==>
      (rs[k].kind == Mineral ==>
         0 <= rs[k].tile.x - 1 - MineralRadius && rs[k].tile.x + MineralRadius < width
         && 0 <= rs[k].tile.y - MineralRadius && rs[k].tile.y + MineralRadius < height)
      && (rs[k].kind == Geyser ==>
         0 <= rs[k].tile.x - GeyserRadius && rs[k].tile.x + GeyserRadius < width
         && 0 <= rs[k].tile.y - GeyserRadius && rs[k].tile.y + GeyserRadius < height)
  }

  lemma {:induction false} MineralsCoverIff(rs: seq<Resource>, a: int, b: int)
    ensures MineralsCover(rs, a, b) <==> exists k :: 0 <= k < |rs| && MineralCovers(rs[k], a, b)
    decreases |rs|
  {
    if |rs| > 0 {
      var n := |rs| - 1;
      MineralsCoverIff(rs[..n], a, b);
      assert forall k :: 0 <= k < n ==> rs[..n][k] == rs[k];
    }
  }

  lemma {:induction false} GeysersCoverIff(rs: seq<Resource>, a: int, b: int)
    ensures GeysersCover(rs, a, b) <==> exists k :: 0 <= k < |rs| && GeyserCovers(rs[k], a, b)
    decreases |rs|
  {
    if |rs| > 0 {
      var n := |rs| - 1;
      GeysersCoverIff(rs[..n], a, b);
      assert forall k :: 0 <= k < n ==> rs[..n][k] == rs[k];
    }
  }

  /**
   * A tile is near a resource exactly when it lies in the corner-cut square
   * at (x, y) or (x - 1, y) of a mineral, or in the corner-cut square of a
   * geyser.
   */
  lemma NearResourceIff(rs: seq<Resource>, a: int, b: int)
    ensures NearResource(rs, a, b) <==>
              exists k :: 0 <= k < |rs| && (MineralCovers(rs[k], a, b) || GeyserCovers(rs[k], a, b))
  {
    MineralsCoverIff(rs, a, b);
    GeysersCoverIff(rs, a, b);
  }

  /**
   * The two nested loops that mark a square around (cx, cy), skipping the
   * four tiles where both offsets reach the radius.  Nothing is bounds
   * checked, so the whole square must lie in the grid.
   */
  method MarkCutSquare(grid: array2<bool>, cx: int, cy: int, r: nat)
    requires 0 <= cx - r && cx + r < grid.Length0
    requires 0 <= cy - r && cy + r < grid.Length1
    modifies grid
    ensures forall a, b :: 0 <= a < grid.Length0 && 0 <= b < grid.Length1 ==>
              grid[a, b] == (old(grid[a, b]) || InCutSquare(cx, cy, r, a, b))
  {
    for i := cx - r to cx + r + 1
      invariant forall a, b :: 0 <= a < grid.Length0 && 0 <= b < grid.Length1 ==>
                  grid[a, b] == (old(grid[a, b]) || (a < i && InCutSquare(cx, cy, r, a, b)))
    {
      for j := cy - r to cy + r + 1
        invariant forall a, b :: 0 <= a < grid.Length0 && 0 <= b < grid.Length1 ==>
                    grid[a, b] == (old(grid[a, b])
                                   || ((a < i || (a == i && b < j)) && InCutSquare(cx, cy, r, a, b)))
      {
        var xLimit := IntAbs(cx - i) == r;
        var yLimit := IntAbs(cy - j) == r;
        if !(xLimit && yLimit) {
          grid[i, j] := true;
        }
      }
    }
  }
}
