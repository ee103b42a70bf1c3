/**
 * Shared value types of the bot: positions, tiles, neutral resource units,
 * and the squared distance used by every spatial query.
 */
module Common {

  datatype Option<+T> = None | Some(value: T)

  /** A point in map coordinates (`CCPosition`, a pair of floats in the bot). */
  datatype Position = Position(x: real, y: real)

  /** A map tile (`CCTilePosition`, a pair of ints). */
  datatype TilePos = TilePos(x: int, y: int)

  /** What a neutral unit is to the base-location manager. */
  datatype ResourceKind = Mineral | Geyser | OtherNeutral

  /** A neutral unit as the manager reads it: its kind, its position and its tile. */
  datatype Resource = Resource(kind: ResourceKind, pos: Position, tile: TilePos)

  function Abs(r: real): (a: real)
    ensures a >= 0.0
    ensures a == r || a == -r
  {
    if r < 0.0 then -r else r
  }

  function IntAbs(i: int): (a: nat)
    ensures a == i || a == -i
  {
    if i < 0 then -i else i
  }

  /** `Util::DistSq`: the squared straight-line distance between two points. */
  function DistSq(a: Position, b: Position): (d: real)
    ensures d >= 0.0
    ensures a == b ==> d == 0.0
  {
    (a.x - b.x) * (a.x - b.x) + (a.y - b.y) * (a.y - b.y)
  }

  /** The C++ cast `(int)f` of a float: truncation toward zero. */
  function TruncToInt(r: real): (i: int)
    ensures 0.0 <= r ==> 0 <= i && i as real <= r < i as real + 1.0
    ensures r < 0.0 ==> i <= 0 && i as real - 1.0 < r <= i as real
  {
    if r >= 0.0 then r.Floor else -((-r).Floor)
  }

  /** The centre of tile (x, y): `TileToPosition(x + 0.5f), TileToPosition(y + 0.5f)`. */
  function TileCenter(x: int, y: int): (p: Position)
    ensures p.x == x as real + 0.5 && p.y == y as real + 0.5
    ensures TruncToInt(p.x) == x || x < 0
    ensures TruncToInt(p.y) == y || y < 0
  {
    Position(x as real + 0.5, y as real + 0.5)
  }
}
