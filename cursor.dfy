/** Cursor shapes: DECSCUSR, `ESC [ n SP q`, for the shapes 0 to 6. */
module Cursor {
  import opened Common

  /** `cursor_type(type)`: the shape must be between 0 and 6. */
  function CursorType(shape: int): (r: string)
    requires 0 <= shape <= 6
    ensures |r| == 5 && r[0] == ESC && r[1] == '[' && r[3] == ' ' && r[4] == 'q'
    ensures r[2] == DigitChar(shape)
  {
    [ESC] + "[" + NatToString(shape) + " q"
  }

  /** The shape a DECSCUSR string selects: the inverse of `CursorType`. */
  function ShapeOf(r: string): (shape: Option<int>)
    ensures shape.Some? ==> 0 <= shape.value <= 6
  {
    if |r| == 5 && r[0] == ESC && r[1] == '[' && r[3] == ' ' && r[4] == 'q' && IsDigit(r[2]) && DigitValue(r[2]) <= 6
    then Some(DigitValue(r[2]))
    else None
  }

  /** Reading the shape back from the string gives the shape written. */
  lemma ShapeRoundTrip(shape: int)
    requires 0 <= shape <= 6
    ensures ShapeOf(CursorType(shape)) == Some(shape)
  {
    assert DigitValue(DigitChar(shape)) == shape;
  }

  /** Distinct shapes give distinct strings. */
  lemma CursorTypeInjective(a: int, b: int)
    requires 0 <= a <= 6 && 0 <= b <= 6 && CursorType(a) == CursorType(b)
    ensures a == b
  {
    ShapeRoundTrip(a);
    ShapeRoundTrip(b);
  }
}
