/** Clamped motion, as all three simulated machines use it. */
module Motion {
  /** The travel of a cylinder, or a level, between its stops. */
  function Clip(x: int, top: nat): (y: int)
    ensures 0 <= y <= top
    ensures 0 <= x <= top ==> y == x
  {
    if x < 0 then 0 else if x > top then top else x
  }
}
