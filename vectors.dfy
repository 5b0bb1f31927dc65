/** Exact stand-ins for the engine's 2D vector type.
    Directions are integer pairs; positions, speeds and displacements are reals,
    so 5.0 and 7.5 are represented without rounding. Screen coordinates:
    y grows downwards, so "up" is (0, -1). */
module Vectors {

  /** A direction vector with integer components. */
  datatype Dir = Dir(x: int, y: int)

  /** A position or displacement with exact real components. */
  datatype Vec = Vec(x: real, y: real)

  const Zero: Dir := Dir(0, 0)
  const UnitX: Dir := Dir(1, 0)
  const UnitY: Dir := Dir(0, 1)

  const Origin: Vec := Vec(0.0, 0.0)

  function Neg(d: Dir): Dir {
    Dir(-d.x, -d.y)
  }

  /** The four axis directions; Up is -UnitY and Left is -UnitX. */
  const Up: Dir := Dir(0, -1)
  const Down: Dir := Dir(0, 1)
  const Left: Dir := Dir(-1, 0)
  const Right: Dir := Dir(1, 0)

  /** One of the four axis unit vectors. */
  predicate IsAxisUnit(d: Dir) {
    d == Up || d == Down || d == Left || d == Right
  }

  function Add(p: Vec, q: Vec): Vec {
    Vec(p.x + q.x, p.y + q.y)
  }

  /** The direction `d` stretched by the scalar `s`. */
  function Scale(d: Dir, s: real): Vec {
    Vec(d.x as real * s, d.y as real * s)
  }

  /** Moving by an axis unit direction changes exactly one coordinate, by exactly `s`. */
  lemma AxisUnitScale(d: Dir, s: real)
    requires IsAxisUnit(d)
    ensures var v := Scale(d, s);
      (v.x == 0.0 && (v.y == s || v.y == -s)) || (v.y == 0.0 && (v.x == s || v.x == -s))
  {
  }
}
