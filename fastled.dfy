/** The pieces of the FastLED pixel library that the effects call. Their code
    is not part of this model; they are written out after FastLED's documented
    8-bit arithmetic (`scale8`, `qadd8`, `beatsin8`), and the effects rely only
    on the bounds proved here. */
module FastLed {

  /** An 8-bit channel value (`uint8_t`). */
  type byte = x: int | 0 <= x < 256

  /** A pixel (`CRGB`). */
  datatype RGB = RGB(r: byte, g: byte, b: byte)

  const Black := RGB(0, 0, 0)
  const White := RGB(255, 255, 255)

  /** `scale8(i, scale)`: `i` scaled by `(scale + 1) / 256`. Never brighter than
      `i`, never above `scale`, and `i` itself at full scale. */
  function Scale8(i: byte, scale: byte): (r: byte)
    ensures r <= i && r <= scale
    ensures scale == 255 ==> r == i
  {
    var x := i * (1 + scale);
    MulMonotone(i, 255, 1 + scale);
    MulMonotone(1 + scale, 256, i);
    DivBelow(x, scale);
    DivBelow(x, i);
    x / 256
  }

  lemma MulMonotone(a: nat, b: nat, c: nat)
    requires a <= b
    ensures a * c <= b * c
  {
  }

  lemma DivBelow(x: nat, k: nat)
    requires x < 256 * (k + 1)
    ensures x / 256 <= k
  {
  }

  /** `qadd8(a, b)`: addition saturating at 255. */
  function QAdd8(a: byte, b: byte): (r: byte)
    ensures a <= r && b <= r && r <= a + b
    ensures a + b <= 255 ==> r == a + b
    ensures a + b > 255 ==> r == 255
  {
    if a + b > 255 then 255 else a + b
  }

  /** `CRGB::nscale8(scale)`: every channel through `Scale8`. */
  function NScale8(c: RGB, scale: byte): RGB {
    RGB(Scale8(c.r, scale), Scale8(c.g, scale), Scale8(c.b, scale))
  }

  /** `CRGB::fadeToBlackBy(amount)`, that is `nscale8(255 - amount)`. */
  function FadeToBlackBy(c: RGB, amount: byte): RGB {
    NScale8(c, 255 - amount)
  }

  /** `CRGB::operator+=`: channel-wise saturating addition. */
  function Add(c: RGB, d: RGB): RGB {
    RGB(QAdd8(c.r, d.r), QAdd8(c.g, d.g), QAdd8(c.b, d.b))
  }

  /** Every channel of `c` is at least that of `base`. */
  predicate AtLeast(c: RGB, base: RGB) {
    c.r >= base.r && c.g >= base.g && c.b >= base.b
  }

  /** Every channel of `c` is at most that of `d`. */
  predicate AtMost(c: RGB, d: RGB) {
    c.r <= d.r && c.g <= d.g && c.b <= d.b
  }

  /** One pixel of `fadeToColor`: darken by `amount`, then add `base`. The result
      is never below `base` and never brighter than the old pixel plus `base`. */
  function FadeTowards(c: RGB, base: RGB, amount: byte): (r: RGB)
    ensures AtLeast(r, base)
    ensures AtMost(r, Add(c, base))
  {
    Add(FadeToBlackBy(c, amount), base)
  }

  /** `beatsin8(bpm, lo, hi)`: `lo` plus the oscillator's 8-bit sine reading for
      `bpm` scaled into the width `hi - lo`. The reading depends on the elapsed
      milliseconds, so it is the parameter `wave`; the result stays in
      `[lo, hi]` whatever the reading. */
  function Beatsin8(wave: nat -> byte, bpm: nat, lo: byte, hi: byte): (r: byte)
    requires lo <= hi
    ensures lo <= r <= hi
  {
    lo + Scale8(wave(bpm), hi - lo)
  }
}
