/**
 * `Coordinate`: the cells of the 4x4x4 cube are numbered `x + 4y + 16z`.
 * The conversions use Java's truncating `/` and `%`, so a negative
 * position yields non-positive coordinates.
 */
module Coordinates {
  import opened JavaInt

  const N: int := 4
  const NSquared: int := N * N
  const NCubed: int := N * N * N

  /** `getX(position)`: `position % N`. */
  function GetX(position: int): (r: int)
    ensures 0 <= position ==> 0 <= r < N
    ensures position < 0 ==> -N < r <= 0
    ensures (position - r) % N == 0
  {
    Rem(position, N)
  }

  /** `getY(position)`: `(position / N) % N`. */
  function GetY(position: int): (r: int)
    ensures 0 <= position ==> 0 <= r < N
    ensures position < 0 ==> -N < r <= 0
  {
    Rem(Div(position, N), N)
  }

  /** `getZ(position)`: `position / (N * N)`. */
  function GetZ(position: int): (r: int)
    ensures 0 <= position < NCubed ==> 0 <= r < N
    ensures 0 <= position ==> r * NSquared <= position < r * NSquared + NSquared
  {
    Div(position, N * N)
  }

  /** `position(x, y, z)`: `x + N * y + N * N * z` in Java `int` arithmetic. */
  function Position(x: int, y: int, z: int): (r: int)
    ensures IsInt(r)
    ensures 0 <= x < N && 0 <= y < N && 0 <= z < N ==> 0 <= r < NCubed
  {
    Wrap32(x + N * y + N * N * z)
  }

  /** The coordinates of a cell give the cell back. */
  lemma PositionOfCoordinates(p: int)
    requires 0 <= p < NCubed
    ensures Position(GetX(p), GetY(p), GetZ(p)) == p
  {
    assert GetX(p) == p % 4 && GetY(p) == (p / 4) % 4 && GetZ(p) == p / 16;
    assert p % 4 + 4 * ((p / 4) % 4) + 16 * (p / 16) == p;
    WrapIdentity(p);
  }

  /** A cell built from in-range coordinates has those coordinates. */
  lemma CoordinatesOfPosition(x: int, y: int, z: int)
    requires 0 <= x < N && 0 <= y < N && 0 <= z < N
    ensures GetX(Position(x, y, z)) == x
    ensures GetY(Position(x, y, z)) == y
    ensures GetZ(Position(x, y, z)) == z
  {
    var p := x + 4 * y + 16 * z;
    WrapIdentity(p);
    assert p % 4 == x && p / 4 == x / 4 + y + 4 * z;
    assert p / 4 == y + 4 * z;
    assert (y + 4 * z) % 4 == y;
    assert p / 16 == z;
  }
}
