/** Small value types shared by every part of the editor model. */
module Base {

  /** A value that may be absent, the model of a JavaScript `null`. */
  datatype Option<T> = None | Some(value: T)

  /** One byte of an RGBA pixel buffer. */
  type byte = b: int | 0 <= b < 256

  /** A point in some two-dimensional coordinate space. */
  datatype Point = Point(x: real, y: real)

  /** An axis-aligned rectangle, as the crop tool draws it. */
  datatype CropRect = CropRect(x: real, y: real, w: real, h: real)

  function Max(a: real, b: real): (r: real)
    ensures r >= a && r >= b
    ensures r == a || r == b
  {
    if a >= b then a else b
  }

  function Min(a: real, b: real): (r: real)
    ensures r <= a && r <= b
    ensures r == a || r == b
  {
    if a <= b then a else b
  }

  function MinNat(a: nat, b: nat): (r: nat)
    ensures r <= a && r <= b
    ensures r == a || r == b
  {
    if a <= b then a else b
  }

  function Abs(a: real): (r: real)
    ensures r >= 0.0
    ensures r == a || r == -a
  {
    if a >= 0.0 then a else -a
  }

  /** JavaScript `Math.round`: the nearest integer, halves rounded up. */
  function Round(a: real): (r: int)
    ensures r as real - 0.5 <= a < r as real + 0.5
  {
    (a + 0.5).Floor
  }
}
