/**
 * Brightness conversion of the dimmer. The host platform speaks brightness
 * 0..255, the device's holding registers 0..100 (percent). The source converts
 * with Python's `round` on `b / 2.55` and `2.55 * raw`; this module computes the
 * same roundings over exact rationals: 2.55 is 255/100.
 */
module Brightness {
  import opened Arithmetic

  /** Brightness scale of the host platform: 0..255. */
  const HostMax: int := 255
  /** Brightness scale of the device registers: 0..100. */
  const DeviceMax: int := 100

  function Abs(x: int): nat {
    if x < 0 then -x else x
  }

  /**
   * n / d rounded to the nearest integer, halves to the even neighbour: the
   * rule of Python's `round`.
   */
  function RoundHalfEven(n: int, d: int): (r: int)
    requires d > 0
    ensures 2 * Abs(d * r - n) <= d
    ensures 2 * Abs(d * r - n) == d ==> r % 2 == 0
  {
    var q, m := n / d, n % d;
    assert n == d * q + m;
    assert d * (q + 1) - n == d - m;
    if 2 * m < d then q
    else if 2 * m > d then q + 1
    else if q % 2 == 0 then q
    else q + 1
  }

  /** `round(brightness / 2.55)`: the register value written for a host brightness. */
  function EncodeBrightness(brightness: int): (raw: int)
    ensures 2 * Abs(DeviceMax * brightness - HostMax * raw) < HostMax
  {
    var raw := RoundHalfEven(DeviceMax * brightness, HostMax);
    assert 2 * Abs(HostMax * raw - DeviceMax * brightness) != HostMax by {
      // 2 * |255 raw - 100 b| is even, 255 is odd: there are no ties
      ParityOfDouble(HostMax * raw - DeviceMax * brightness);
    }
    raw
  }

  /** `round(2.55 * raw)`: the host brightness reported for a register value. */
  function DecodeBrightness(raw: int): (brightness: int)
    ensures 2 * Abs(DeviceMax * brightness - HostMax * raw) <= DeviceMax
  {
    RoundHalfEven(HostMax * raw, DeviceMax)
  }

  lemma ParityOfDouble(x: int)
    ensures (2 * Abs(x)) % 2 == 0
  {
  }

  /** An integer strictly within half a step of n / d is the rounded value. */
  lemma RoundHalfEvenUnique(n: int, d: int, x: int)
    requires d > 0 && 2 * Abs(d * x - n) < d
    ensures RoundHalfEven(n, d) == x
  {
    var r := RoundHalfEven(n, d);
    // |d r - d x| < d, so r - x is 0
    assert Abs(d * r - d * x) < d;
    if r > x {
      assert d * r - d * x == (r - x) * d;
      MulAtLeast(r - x, d);
    } else if r < x {
      assert d * x - d * r == (x - r) * d;
      MulAtLeast(x - r, d);
    }
  }

  /** Reading back what the device reports and writing it again changes nothing. */
  lemma EncodeDecodeRoundTrip(raw: int)
    ensures EncodeBrightness(DecodeBrightness(raw)) == raw
  {
    var b := DecodeBrightness(raw);
    // |100 b - 255 raw| <= 50 < 127.5
    RoundHalfEvenUnique(DeviceMax * b, HostMax, raw);
  }

  /** Writing a host brightness and reading the register back reports it to within one step. */
  lemma BrightnessReadBack(brightness: int)
    ensures Abs(DecodeBrightness(EncodeBrightness(brightness)) - brightness) <= 1
  {
    var raw := EncodeBrightness(brightness);
    var back := DecodeBrightness(raw);
    // |100 back - 255 raw| <= 50 and |255 raw - 100 b| < 127.5, so |back - b| < 1.775
    assert 2 * Abs(DeviceMax * back - DeviceMax * brightness) < DeviceMax + HostMax;
  }

  /** Host brightness 0..255 lands in the register range 0..100, with the end points fixed. */
  lemma EncodeBrightnessRange(brightness: int)
    requires 0 <= brightness <= HostMax
    ensures 0 <= EncodeBrightness(brightness) <= DeviceMax
    ensures brightness == 0 ==> EncodeBrightness(brightness) == 0
    ensures brightness == HostMax ==> EncodeBrightness(brightness) == DeviceMax
  {
    var raw := EncodeBrightness(brightness);
    if brightness == 0 {
      RoundHalfEvenUnique(0, HostMax, 0);
    } else if brightness == HostMax {
      RoundHalfEvenUnique(DeviceMax * HostMax, HostMax, DeviceMax);
    }
  }

  /** Register values 0..100 are reported in 0..255, with the end points fixed. */
  lemma DecodeBrightnessRange(raw: int)
    requires 0 <= raw <= DeviceMax
    ensures 0 <= DecodeBrightness(raw) <= HostMax
    ensures raw == 0 ==> DecodeBrightness(raw) == 0
    ensures raw == DeviceMax ==> DecodeBrightness(raw) == HostMax
  {
    if raw == 0 {
      RoundHalfEvenUnique(0, DeviceMax, 0);
    } else if raw == DeviceMax {
      RoundHalfEvenUnique(HostMax * DeviceMax, DeviceMax, HostMax);
    }
  }

  /** A larger host brightness never writes a smaller register value. */
  lemma EncodeBrightnessMonotone(b1: int, b2: int)
    requires b1 <= b2
    ensures EncodeBrightness(b1) <= EncodeBrightness(b2)
  {
    // 255 r1 < 100 b1 + 127.5 <= 100 b2 + 127.5 < 255 r2 + 255, so r1 < r2 + 1
    var r1, r2 := EncodeBrightness(b1), EncodeBrightness(b2);
  }

  /**
   * The exact product 2.55 * raw is a half exactly when raw = 10 (mod 20);
   * there this model rounds to the even neighbour, as Python's `round` does
   * on a half.
   */
  lemma DecodeBrightnessTies(raw: int)
    ensures 2 * Abs(DeviceMax * DecodeBrightness(raw) - HostMax * raw) == DeviceMax <==> raw % 20 == 10
    ensures raw % 20 == 10 ==> DecodeBrightness(raw) % 2 == 0
  {
    var b, k, t := DecodeBrightness(raw), raw / 20, raw % 20;
    DivMod(raw, 20);
    // 100 b - 255 raw == 100 (b - 51 k) - 255 t, and 0 <= t < 20
    assert DeviceMax * b - HostMax * raw == 100 * (b - 51 * k) - 255 * t;
  }
}
