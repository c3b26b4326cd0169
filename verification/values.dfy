/**
 * The values the simple API accepts or normalises before writing them:
 * LED colours, torque codes, positions and baud numbers.
 */
module Values {
  import opened Wrappers

  /**
   * A colour flag of `setLed`'s `color` argument. The numeric values of
   * LED_GREEN, LED_BLUE and LED_RED are defined in a header that is not part
   * of this model; the argument is modelled as the set of flags it holds.
   */
  datatype Color = Green | Blue | Red

  /** The colours whose bit is set in an LED register value (green 1, blue 2, red 4). */
  function LedColors(v: int): set<Color>
  {
    (if v % 2 == 1 then {Green} else {})
      + (if (v / 2) % 2 == 1 then {Blue} else {})
      + (if (v / 4) % 2 == 1 then {Red} else {})
  }

  /**
   * The value `setLed` writes: 0 when `led < 1`, otherwise the bitmask of
   * the requested colours (see `LedValueRoundTrip`).
   */
  function LedValue(led: int, colors: set<Color>): (v: int)
    ensures 0 <= v <= 7
    ensures led < 1 ==> v == 0
  {
    if led >= 1 then
      (if Green in colors then 0x01 else 0)
        + (if Blue in colors then 0x02 else 0)
        + (if Red in colors then 0x04 else 0)
    else 0
  }

  /** A lit LED value decodes back into exactly the colours requested. */
  lemma LedValueRoundTrip(led: int, colors: set<Color>)
    requires led >= 1
    ensures LedColors(LedValue(led, colors)) == colors
  {
    var v := LedValue(led, colors);
    assert v % 2 == 1 <==> Green in colors;
    assert (v / 2) % 2 == 1 <==> Blue in colors;
    assert (v / 4) % 2 == 1 <==> Red in colors;
    forall c: Color
      ensures c in LedColors(v) <==> c in colors
    {
      match c
      case Green =>
      case Blue =>
      case Red =>
    }
  }

  /**
   * The torque code `setTorqueEnabled` writes, if any: 1 ("torque on" for
   * Dynamixel devices) becomes 0x60; only 0x00, 0x40 and 0x60 are ever
   * written, and any other request is refused.
   */
  function TorqueCode(torque: int): (c: Option<int>)
    ensures c.Some? ==> c.value == 0x00 || c.value == 0x40 || c.value == 0x60
    ensures c.Some? <==> torque == 0x00 || torque == 0x01 || torque == 0x40 || torque == 0x60
    ensures torque == 1 ==> c == Some(0x60)
    ensures c.Some? && torque != 1 ==> c.value == torque
  {
    var t := if torque == 1 then 0x60 else torque;
    if t == 0x00 || t == 0x40 || t == 0x60 then Some(t) else None
  }

  /** Positions are in [0, 4095] (the high-end series; most series use [0, 1023]). */
  predicate ValidPosition(p: int) { 0 <= p <= 4095 }

  /** Baud numbers are in [0, 34]. */
  predicate ValidBaudnum(b: int) { 0 <= b <= 34 }

  /**
   * A position read back by `getMinMaxPositions`: the value read when the
   * read succeeded and the value is a position, -1 otherwise.
   */
  function PositionOrInvalid(ok: bool, v: int): (p: int)
    ensures p == -1 || ValidPosition(p)
    ensures p != -1 ==> ok && p == v
    ensures ok && ValidPosition(v) ==> p == v
  {
    if ok && ValidPosition(v) then v else -1
  }
}
