/**
 Mapping a pattern value to a pixel colour: linear interpolation between two
 colours, Python's `int()` (truncation toward zero), then a clamp to 0..255.
 */
module ColorMap {

  /** An RGB colour, one integer per channel. */
  datatype Rgb = Rgb(red: int, green: int, blue: int)

  /** The two ends of the pattern colour range: black to blue. */
  const StartColor: Rgb := Rgb(0, 0, 0)
  const EndColor: Rgb := Rgb(100, 100, 255)

  /** The greatest channel value an 8-bit colour can hold. */
  const MaxChannel: int := 255

  /** Python's `int()` on a float: drops the fraction, rounding toward zero. */
  function Trunc(x: real): (r: int)
    ensures 0.0 <= x ==> 0 <= r && r as real <= x < r as real + 1.0
    ensures x < 0.0 ==> r <= 0 && r as real - 1.0 < x <= r as real
  {
    if x >= 0.0 then x.Floor else -((-x).Floor)
  }

  /** `max(0, min(255, v))`. */
  function Clamp(v: int): (r: int)
    ensures 0 <= r <= MaxChannel
    ensures 0 <= v <= MaxChannel ==> r == v
    ensures v < 0 ==> r == 0
    ensures v > MaxChannel ==> r == MaxChannel
  {
    if v < 0 then 0 else if v > MaxChannel then MaxChannel else v
  }

  /** The point `value` of the way from `start` to `end`: `start + (end - start) * value`. */
  function Lerp(start: int, end: int, value: real): (x: real)
    ensures value == 0.0 ==> x == start as real
    ensures value == 1.0 ==> x == end as real
  {
    start as real + (end - start) as real * value
  }

  /** One channel: the point `value` of the way from `start` to `end`, truncated
      and clamped. Below 1 it is 0, from 255 on it is 255, and in between it is
      the whole part of the interpolated value. */
  function Channel(start: int, end: int, value: real): (r: int)
    ensures 0 <= r <= MaxChannel
    ensures var x := Lerp(start, end, value);
      && (x < 1.0 ==> r == 0)
      && (x >= MaxChannel as real ==> r == MaxChannel)
      && (1.0 <= x < MaxChannel as real ==> r as real <= x < r as real + 1.0)
  {
    Clamp(Trunc(Lerp(start, end, value)))
  }

  /** The colour of a cell whose pattern value is `value`. */
  function MapValueToColor(value: real): (c: Rgb)
    ensures 0 <= c.red <= MaxChannel && 0 <= c.green <= MaxChannel && 0 <= c.blue <= MaxChannel
  {
    Rgb(Channel(StartColor.red, EndColor.red, value),
        Channel(StartColor.green, EndColor.green, value),
        Channel(StartColor.blue, EndColor.blue, value))
  }

  /** Colour `a` is nowhere brighter than colour `b`. */
  predicate Dimmer(a: Rgb, b: Rgb)
  {
    a.red <= b.red && a.green <= b.green && a.blue <= b.blue
  }

  /** The two ends of the value range give the two ends of the colour range. */
  lemma MapValueEndpoints()
    ensures MapValueToColor(0.0) == StartColor
    ensures MapValueToColor(1.0) == EndColor
  {
  }

  lemma TruncMonotone(x: real, y: real)
    requires x <= y
    ensures Trunc(x) <= Trunc(y)
  {
  }

  lemma ClampMonotone(u: int, v: int)
    requires u <= v
    ensures Clamp(u) <= Clamp(v)
  {
  }

  /** Moving further along a non-decreasing range never goes back. */
  lemma LerpMonotone(start: int, end: int, v: real, w: real)
    requires start <= end && v <= w
    ensures Lerp(start, end, v) <= Lerp(start, end, w)
  {
    var k := (end - start) as real;
    assert k * w - k * v == k * (w - v);
  }

  /** A channel whose end is at least its start never darkens as the value grows. */
  lemma ChannelMonotone(start: int, end: int, v: real, w: real)
    requires start <= end && v <= w
    ensures Channel(start, end, v) <= Channel(start, end, w)
  {
    var x := Lerp(start, end, v);
    var y := Lerp(start, end, w);
    LerpMonotone(start, end, v, w);
    TruncMonotone(x, y);
    ClampMonotone(Trunc(x), Trunc(y));
  }

  /** A larger pattern value never gives a darker colour, in any channel. */
  lemma MapValueMonotone(v: real, w: real)
    requires v <= w
    ensures Dimmer(MapValueToColor(v), MapValueToColor(w))
  {
    ChannelMonotone(StartColor.red, EndColor.red, v, w);
    ChannelMonotone(StartColor.green, EndColor.green, v, w);
    ChannelMonotone(StartColor.blue, EndColor.blue, v, w);
  }

  /** Inside the nominal range the clamp never bites: the colour lies between the
      two ends of the range, channel by channel. */
  lemma MapValueBetweenEnds(value: real)
    requires 0.0 <= value <= 1.0
    ensures Dimmer(StartColor, MapValueToColor(value))
    ensures Dimmer(MapValueToColor(value), EndColor)
    ensures MapValueToColor(value) == Rgb(Trunc(Lerp(StartColor.red, EndColor.red, value)),
                                          Trunc(Lerp(StartColor.green, EndColor.green, value)),
                                          Trunc(Lerp(StartColor.blue, EndColor.blue, value)))
  {
    MapValueEndpoints();
    MapValueMonotone(0.0, value);
    MapValueMonotone(value, 1.0);
    UnclampedChannel(StartColor.red, EndColor.red, value);
    UnclampedChannel(StartColor.green, EndColor.green, value);
    UnclampedChannel(StartColor.blue, EndColor.blue, value);
  }

  /** A channel whose ends are both valid channel values needs no clamp for a
      value in [0, 1]: the truncated interpolation is already in range. */
  lemma UnclampedChannel(start: int, end: int, value: real)
    requires 0 <= start <= end <= MaxChannel && 0.0 <= value <= 1.0
    ensures Channel(start, end, value) == Trunc(Lerp(start, end, value))
  {
    LerpMonotone(start, end, 0.0, value);
    LerpMonotone(start, end, value, 1.0);
  }
}
