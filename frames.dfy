/** What one frame of each weather effect does to the pixel buffer
    (LEDEffects.cpp `effect*`, `fadeToColor`, `twinkle`), as functions of the
    old buffer, the animation step, the daylight period, the random source's
    remaining draws and the oscillator reading. The `LedEffects` class is
    proved to compute exactly these. */
module Frames {
  import opened Config
  import opened FastLed
  import opened Arduino
  import opened Palette

  // Partly cloudy: bands of ten pixels that swap every fifty steps.
  const BandWidth: nat := 10
  const BandPeriod: nat := 50

  // Rain: fade towards dark blue, a droplet every third step.
  const RainBase := RGB(0, 0, 50)
  const RainFade: byte := 10
  const RainEvery: nat := 3
  const Droplet := RGB(50, 50, 255)

  // Storm: fade towards stormy blue, then a 5% full flash or else a 3% segment flash.
  const StormBase := RGB(10, 10, 30)
  const StormFade: byte := 20
  const FlashChance: nat := 5
  const SegmentChance: nat := 3
  const SegmentWidth: nat := 10
  const SegmentColor := RGB(200, 200, 255)

  // Snow: fade towards blue-white, a flake every fifth step, two sparkles each frame.
  const SnowBase := RGB(200, 200, 255)
  const SnowFade: byte := 15
  const SnowEvery: nat := 5
  const Sparkle := RGB(230, 230, 255)
  const Sparkles: nat := 2

  /** The buffer after a frame, and the random draws left. */
  datatype Frame = Frame(pixels: seq<RGB>, tape: seq<nat>)

  /** `fill_solid(leds, NUM_LEDS, c)`. */
  function Solid(c: RGB): (s: seq<RGB>)
    ensures |s| == NUM_LEDS
  {
    seq(NUM_LEDS, _ => c)
  }

  /** `fadeToColor(base, amount)`: every pixel faded, then `base` added. */
  function Faded(buf: seq<RGB>, base: RGB, amount: byte): (s: seq<RGB>)
    ensures |s| == |buf|
  {
    seq(|buf|, i requires 0 <= i < |buf| => FadeTowards(buf[i], base, amount))
  }

  /** The band pattern of `effectPartlyCloudy`: pixel `i` shows the sun when
      `(i / 10 + step / 50) % 2 == 0`, the cloud otherwise. */
  function Banded(step: nat, sun: RGB, cloud: RGB): (s: seq<RGB>)
    ensures |s| == NUM_LEDS
  {
    seq(NUM_LEDS, i => if (i / BandWidth + step / BandPeriod) % 2 == 0 then sun else cloud)
  }

  /** `buf` with the pixels `lo <= i < hi` set to `c`. */
  function Painted(buf: seq<RGB>, lo: nat, hi: nat, c: RGB): (s: seq<RGB>)
    ensures |s| == |buf|
  {
    seq(|buf|, i requires 0 <= i < |buf| => if lo <= i < hi then c else buf[i])
  }

  /** The tape after `n` draws. */
  function DropDraws(tape: seq<nat>, n: nat): seq<nat> {
    if n == 0 then tape else DropDraws(Rest(tape), n - 1)
  }

  /** The positions `twinkle` picks, in order: one draw below `NUM_LEDS` each. */
  function SparklePositions(tape: seq<nat>, n: nat): (ps: seq<nat>)
    ensures |ps| == n
    ensures forall k :: 0 <= k < n ==> ps[k] < NUM_LEDS
  {
    if n == 0 then [] else [Draw(tape, NUM_LEDS)] + SparklePositions(Rest(tape), n - 1)
  }

  /** `twinkle(c, n)`: `n` times, a random pixel is set to `c`. */
  function Twinkled(buf: seq<RGB>, c: RGB, n: nat, tape: seq<nat>): Frame
    requires |buf| == NUM_LEDS
    decreases n
  {
    if n == 0 then Frame(buf, tape) else Twinkled(buf[Draw(tape, NUM_LEDS) := c], c, n - 1, Rest(tape))
  }

  /** `effectClear`: the sun colour everywhere. */
  function ClearFrame(tod: TimeOfDay): seq<RGB> {
    Solid(SunColor(tod))
  }

  /** `effectCloudy`: the cloud colour dimmed by a slow 10-bpm wave in [200, 255]. */
  function CloudyFrame(tod: TimeOfDay, wave: nat -> byte): seq<RGB> {
    Solid(NScale8(CloudColor(tod), Beatsin8(wave, 10, 200, 255)))
  }

  /** `effectPartlyCloudy`. */
  function PartlyCloudyFrame(tod: TimeOfDay, step: nat): seq<RGB> {
    Banded(step, SunColor(tod), CloudColor(tod))
  }

  /** Whether the rain effect drops a droplet at this step. */
  predicate RainInjects(step: nat) {
    step % RainEvery == 0
  }

  /** `effectRain`. */
  function RainFrame(buf: seq<RGB>, step: nat, tape: seq<nat>): Frame
    requires |buf| == NUM_LEDS
  {
    var faded := Faded(buf, RainBase, RainFade);
    if RainInjects(step) then Frame(faded[Draw(tape, NUM_LEDS) := Droplet], Rest(tape)) else Frame(faded, tape)
  }

  /** `effectStorm`: the second chance is drawn only when the first fails. */
  function StormFrame(buf: seq<RGB>, tape: seq<nat>): Frame
    requires |buf| == NUM_LEDS
  {
    var faded := Faded(buf, StormBase, StormFade);
    if Draw(tape, 100) < FlashChance then
      Frame(Solid(White), Rest(tape))
    else
      var afterSecond := Rest(Rest(tape));
      if Draw(Rest(tape), 100) < SegmentChance then
        var start := Draw(afterSecond, NUM_LEDS - SegmentWidth);
        Frame(Painted(faded, start, start + SegmentWidth, SegmentColor), Rest(afterSecond))
      else
        Frame(faded, afterSecond)
  }

  /** Whether the snow effect drops a flake at this step. */
  predicate SnowInjects(step: nat) {
    step % SnowEvery == 0
  }

  /** `effectSnow`: fade, maybe a white flake, then two sparkles. */
  function SnowFrame(buf: seq<RGB>, step: nat, tape: seq<nat>): Frame
    requires |buf| == NUM_LEDS
  {
    var faded := Faded(buf, SnowBase, SnowFade);
    if SnowInjects(step) then
      Twinkled(faded[Draw(tape, NUM_LEDS) := White], Sparkle, Sparkles, Rest(tape))
    else
      Twinkled(faded, Sparkle, Sparkles, tape)
  }

  /** `effectFog`: a grey following a 5-bpm wave in [150, 230]. */
  function FogFrame(wave: nat -> byte): seq<RGB> {
    var w := Beatsin8(wave, 5, 150, 230);
    Solid(RGB(w, w, w))
  }

  /** `effectError`: a red following a 30-bpm pulse in [50, 200]. */
  function ErrorFrame(wave: nat -> byte): seq<RGB> {
    Solid(RGB(Beatsin8(wave, 30, 50, 200), 0, 0))
  }

  /** The effect `update` dispatches to for each weather; `Unknown` (the
      `default` branch) shows the error pulse. */
  function Render(weather: WeatherCondition, tod: TimeOfDay, step: nat, buf: seq<RGB>, tape: seq<nat>, wave: nat -> byte): Frame
    requires |buf| == NUM_LEDS
  {
    match weather
    case Clear => Frame(ClearFrame(tod), tape)
    case Cloudy => Frame(CloudyFrame(tod, wave), tape)
    case PartlyCloudy => Frame(PartlyCloudyFrame(tod, step), tape)
    case Rain => RainFrame(buf, step, tape)
    case Storm => StormFrame(buf, tape)
    case Snow => SnowFrame(buf, step, tape)
    case Fog => Frame(FogFrame(wave), tape)
    case Unknown => Frame(ErrorFrame(wave), tape)
  }

  // ---------------------------------------------------------------------------
  // Properties of the frames

  /** A clear sky by day is uniformly (255, 220, 100), whatever was shown before. */
  lemma ClearDayIsWarmYellow(i: nat)
    requires i < NUM_LEDS
    ensures ClearFrame(Day)[i] == RGB(255, 220, 100)
  {
  }

  /** Fading towards `base` keeps every pixel in place and leaves it at least
      `base` and at most the old pixel plus `base`. */
  lemma FadedBounds(buf: seq<RGB>, base: RGB, amount: byte, i: nat)
    requires i < |buf|
    ensures AtLeast(Faded(buf, base, amount)[i], base)
    ensures AtMost(Faded(buf, base, amount)[i], Add(buf[i], base))
  {
  }

  /** Partly cloudy: each pixel is the sun colour exactly when its band's parity
      with the step is even, and the cloud colour otherwise; the ten pixels of a
      band agree. */
  lemma PartlyCloudyBands(tod: TimeOfDay, step: nat, i: nat, j: nat)
    requires i < NUM_LEDS && j < NUM_LEDS
    ensures PartlyCloudyFrame(tod, step)[i] == SunColor(tod) <==> (i / 10 + step / 50) % 2 == 0
    ensures PartlyCloudyFrame(tod, step)[i] == CloudColor(tod) <==> (i / 10 + step / 50) % 2 != 0
    ensures i / 10 == j / 10 ==> PartlyCloudyFrame(tod, step)[i] == PartlyCloudyFrame(tod, step)[j]
  {
    SunIsNeverCloud(tod);
  }

  /** Every fifty steps the sun and cloud bands trade places. */
  lemma {:induction false} BandsSwap(tod: TimeOfDay, step: nat, i: nat)
    requires i < NUM_LEDS
    ensures PartlyCloudyFrame(tod, step + BandPeriod)[i] != PartlyCloudyFrame(tod, step)[i]
  {
    assert (step + BandPeriod) / BandPeriod == step / BandPeriod + 1;
    SunIsNeverCloud(tod);
  }

  /** Rain: on a droplet step exactly one in-range pixel (the drawn one) becomes
      the droplet colour and one draw is used; otherwise the frame is just the
      fade and no draw is used. Every pixel stays at least the dark-blue base. */
  lemma RainDroplet(buf: seq<RGB>, step: nat, tape: seq<nat>)
    requires |buf| == NUM_LEDS
    ensures var f := RainFrame(buf, step, tape);
      var faded := Faded(buf, RainBase, RainFade);
      var pos := Draw(tape, NUM_LEDS);
      |f.pixels| == NUM_LEDS &&
      (RainInjects(step) ==>
         pos < NUM_LEDS && f.pixels[pos] == Droplet && f.tape == Rest(tape) &&
         forall i :: 0 <= i < NUM_LEDS && i != pos ==> f.pixels[i] == faded[i]) &&
      (!RainInjects(step) ==> f.pixels == faded && f.tape == tape) &&
      forall i :: 0 <= i < NUM_LEDS ==> AtLeast(f.pixels[i], RainBase)
  {
  }

  /** The number of steps among `1..n` that are multiples of `m`. */
  function Multiples(n: nat, m: nat): nat
    requires 0 < m
  {
    if n == 0 then 0 else Multiples(n - 1, m) + (if n % m == 0 then 1 else 0)
  }

  /** Over the steps `1..n`, a step test `step % m == 0` fires `n / m` times. */
  lemma {:induction false} MultiplesCount(n: nat, m: nat)
    requires 0 < m
    ensures Multiples(n, m) == n / m
  {
    if n > 0 {
      MultiplesCount(n - 1, m);
      var q, r := (n - 1) / m, (n - 1) % m;
      if r == m - 1 {
        DivisionByParts(n, m, q + 1, 0);
      } else {
        DivisionByParts(n, m, q, r + 1);
      }
    }
  }

  /** Quotient and remainder are the unique such parts. */
  lemma DivisionByParts(n: nat, m: nat, q: nat, r: nat)
    requires 0 < m && r < m && n == q * m + r
    ensures n / m == q && n % m == r
  {
    var q', r' := n / m, n % m;
    assert (q' - q) * m == r - r' by {
      assert n == q' * m + r';
    }
    if q' != q {
      AtLeastOneMultiple(if q' > q then q' - q else q - q', m);
      assert false;
    }
  }

  lemma AtLeastOneMultiple(d: nat, m: nat)
    requires d >= 1
    ensures d * m >= m
  {
    assert d * m == (d - 1) * m + m;
  }

  /** The first thousand updates after a reset run steps `1..1000`, of which
      333 are droplet steps (multiples of `RainEvery`). */
  lemma ThousandRainFrames()
    ensures Multiples(1000, RainEvery) == 333
  {
    MultiplesCount(1000, RainEvery);
  }

  /** A storm frame never shows white unless the 5% full flash fired. */
  lemma StormFadeIsNeverWhite(buf: seq<RGB>, i: nat)
    requires |buf| == NUM_LEDS && i < NUM_LEDS
    ensures Faded(buf, StormBase, StormFade)[i] != White
    ensures Faded(buf, StormBase, StormFade)[i].r <= 245
  {
    var c := FadeToBlackBy(buf[i], StormFade);
    assert c.r <= 235;
  }

  /** Storm: at most one flash per frame. A first draw below 5 whitens the whole
      strip and uses one draw; otherwise no pixel is white, and a second draw
      below 3 paints the ten pixels from a third draw's start (all in range, and
      never the last pixel) and leaves the rest faded, using three draws; else
      the frame is the fade alone, using two. */
  lemma StormAtMostOneFlash(buf: seq<RGB>, tape: seq<nat>)
    requires |buf| == NUM_LEDS
    ensures var f := StormFrame(buf, tape);
      var faded := Faded(buf, StormBase, StormFade);
      var start := Draw(Rest(Rest(tape)), NUM_LEDS - SegmentWidth);
      |f.pixels| == NUM_LEDS &&
      (Draw(tape, 100) < FlashChance ==>
         f.tape == Rest(tape) && forall i :: 0 <= i < NUM_LEDS ==> f.pixels[i] == White) &&
      (Draw(tape, 100) >= FlashChance ==>
         forall i :: 0 <= i < NUM_LEDS ==> f.pixels[i] != White) &&
      (Draw(tape, 100) >= FlashChance && Draw(Rest(tape), 100) < SegmentChance ==>
         start + SegmentWidth < NUM_LEDS &&
         f.tape == Rest(Rest(Rest(tape))) &&
         (forall i :: start <= i < start + SegmentWidth ==> f.pixels[i] == SegmentColor) &&
         (forall i :: 0 <= i < NUM_LEDS && !(start <= i < start + SegmentWidth) ==> f.pixels[i] == faded[i])) &&
      (Draw(tape, 100) >= FlashChance && Draw(Rest(tape), 100) >= SegmentChance ==>
         f.pixels == faded && f.tape == Rest(Rest(tape)))
  {
    forall i | 0 <= i < NUM_LEDS {
      StormFadeIsNeverWhite(buf, i);
    }
  }

  /** `twinkle` writes `c` at every position it draws and nowhere else, and uses
      one draw per sparkle. Positions may repeat. */
  lemma {:induction false} TwinkleWrites(buf: seq<RGB>, c: RGB, n: nat, tape: seq<nat>)
    requires |buf| == NUM_LEDS
    decreases n
    ensures var f := Twinkled(buf, c, n, tape);
      var ps := SparklePositions(tape, n);
      |f.pixels| == NUM_LEDS && f.tape == DropDraws(tape, n) &&
      (forall k :: 0 <= k < n ==> f.pixels[ps[k]] == c) &&
      (forall i :: 0 <= i < NUM_LEDS && i !in ps ==> f.pixels[i] == buf[i])
  {
    if n > 0 {
      var p := Draw(tape, NUM_LEDS);
      TwinkleWrites(buf[p := c], c, n - 1, Rest(tape));
      var ps := SparklePositions(tape, n);
      assert ps == [p] + SparklePositions(Rest(tape), n - 1);
      var f := Twinkled(buf, c, n, tape);
      forall k | 0 <= k < n
        ensures f.pixels[ps[k]] == c
      {
        if k > 0 {
          assert ps[k] == SparklePositions(Rest(tape), n - 1)[k - 1];
        } else if p !in SparklePositions(Rest(tape), n - 1) {
          assert f.pixels[p] == buf[p := c][p];
        }
      }
    }
  }

  /** Snow: a white flake at the first drawn pixel exactly on every fifth step,
      then two sparkles at the next two drawn pixels (which may coincide with
      each other or with the flake); every other pixel is the fade. */
  lemma SnowFlakeAndSparkles(buf: seq<RGB>, step: nat, tape: seq<nat>)
    requires |buf| == NUM_LEDS
    ensures var f := SnowFrame(buf, step, tape);
      var faded := Faded(buf, SnowBase, SnowFade);
      var flake := Draw(tape, NUM_LEDS);
      var sparkleTape := if SnowInjects(step) then Rest(tape) else tape;
      var ps := SparklePositions(sparkleTape, Sparkles);
      |f.pixels| == NUM_LEDS && |ps| == 2 && ps[0] < NUM_LEDS && ps[1] < NUM_LEDS &&
      f.pixels[ps[0]] == Sparkle && f.pixels[ps[1]] == Sparkle &&
      f.tape == DropDraws(sparkleTape, Sparkles) &&
      (SnowInjects(step) && flake !in ps ==> f.pixels[flake] == White) &&
      (forall i :: 0 <= i < NUM_LEDS && i !in ps && !(SnowInjects(step) && i == flake) ==> f.pixels[i] == faded[i])
  {
    var faded := Faded(buf, SnowBase, SnowFade);
    if SnowInjects(step) {
      TwinkleWrites(faded[Draw(tape, NUM_LEDS) := White], Sparkle, Sparkles, Rest(tape));
    } else {
      TwinkleWrites(faded, Sparkle, Sparkles, tape);
    }
  }

  /** The oscillating effects fill the strip with one colour whose level stays
      inside its wave's range: cloud grey dimmed to at most the ambient
      brightness, fog grey in [150, 230], error red in [50, 200]. */
  lemma OscillatingFills(tod: TimeOfDay, wave: nat -> byte, i: nat, j: nat)
    requires i < NUM_LEDS && j < NUM_LEDS
    ensures CloudyFrame(tod, wave)[i] == CloudyFrame(tod, wave)[j]
    ensures var c := CloudyFrame(tod, wave)[i];
      c.r == c.g == c.b && c.r <= AmbientBrightness(tod)
    ensures FogFrame(wave)[i] == FogFrame(wave)[j]
    ensures var c := FogFrame(wave)[i];
      c.r == c.g == c.b && 150 <= c.r <= 230
    ensures ErrorFrame(wave)[i] == ErrorFrame(wave)[j]
    ensures var c := ErrorFrame(wave)[i];
      50 <= c.r <= 200 && c.g == 0 && c.b == 0
  {
  }
}
