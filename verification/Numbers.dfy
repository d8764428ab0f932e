/** Numbers several modules use. */
module Numbers {

  type byte = b: int | 0 <= b < 256

  function Abs(x: real): (r: real)
    ensures 0.0 <= r && (r == x || r == -x)
  {
    if x < 0.0 then -x else x
  }
}
