/** The animation engine (LEDEffects.cpp): the `LEDEffects` object with its
    persistent pixel buffer, the weather and daylight period it animates, and
    the step counter. Every effect mutates the buffer in place and is proved
    to produce the frame `Frames` describes. */
module Effects {
  import opened Config
  import opened FastLed
  import opened Arduino
  import opened Palette
  import opened Frames

  /** `animationStep` is an `unsigned long`, 32 bits wide on the target. */
  const STEP_MODULUS: nat := 0x1_0000_0000

  class LedEffects {
    var leds: array<RGB>
    var currentWeather: WeatherCondition
    var currentTimeOfDay: TimeOfDay
    var animationStep: nat

    /** The buffer has one pixel per LED and the counter fits its width. */
    ghost predicate Valid()
      reads this
    {
      leds.Length == NUM_LEDS && animationStep < STEP_MODULUS
    }

    /** `LEDEffects()`: unknown weather by day, step 0. */
    constructor ()
      ensures Valid() && fresh(leds)
      ensures currentWeather == Unknown && currentTimeOfDay == Day && animationStep == 0
    {
      leds := new RGB[NUM_LEDS];
      currentWeather := Unknown;
      currentTimeOfDay := Day;
      animationStep := 0;
    }

    /** `setWeatherEffect`: a new target restarts the animation but keeps the
        pixels, so the next effect fades from what is shown. */
    method SetWeatherEffect(weather: WeatherCondition, tod: TimeOfDay)
      requires Valid()
      modifies this
      ensures Valid() && leds == old(leds) && leds[..] == old(leds[..])
      ensures currentWeather == weather && currentTimeOfDay == tod && animationStep == 0
    {
      currentWeather := weather;
      currentTimeOfDay := tod;
      animationStep := 0;
    }

    /** `showError`: switches to the unknown weather, whose effect is the error
        pulse; nothing else changes. */
    method ShowError()
      requires Valid()
      modifies this
      ensures Valid() && leds == old(leds) && leds[..] == old(leds[..])
      ensures currentWeather == Unknown
      ensures currentTimeOfDay == old(currentTimeOfDay) && animationStep == old(animationStep)
    {
      currentWeather := Unknown;
    }

    /** `clear`: every pixel black (the buffer part; showing it is the driver's). */
    method Clear()
      requires Valid()
      modifies leds
      ensures leds[..] == Solid(Black)
    {
      FillSolid(Black);
    }

    /** `update`: advance the step (wrapping at 2^32), then run the one effect
        the current weather selects on the buffer. */
    method Update(rng: RandomSource, wave: nat -> byte)
      requires Valid()
      modifies this, leds, rng
      ensures Valid() && leds == old(leds)
      ensures currentWeather == old(currentWeather) && currentTimeOfDay == old(currentTimeOfDay)
      ensures animationStep == (old(animationStep) + 1) % STEP_MODULUS
      ensures Frame(leds[..], rng.tape)
           == Render(currentWeather, currentTimeOfDay, animationStep, old(leds[..]), old(rng.tape), wave)
    {
      animationStep := (animationStep + 1) % STEP_MODULUS;
      match currentWeather
      case Clear => EffectClear();
      case Cloudy => EffectCloudy(wave);
      case PartlyCloudy => EffectPartlyCloudy();
      case Rain => EffectRain(rng);
      case Storm => EffectStorm(rng);
      case Snow => EffectSnow(rng);
      case Fog => EffectFog(wave);
      case Unknown => EffectError(wave);
    }

    method EffectClear()
      requires Valid()
      modifies leds
      ensures leds[..] == ClearFrame(currentTimeOfDay)
    {
      FillSolid(SunColor(currentTimeOfDay));
    }

    method EffectCloudy(wave: nat -> byte)
      requires Valid()
      modifies leds
      ensures leds[..] == CloudyFrame(currentTimeOfDay, wave)
    {
      var cloudColor := CloudColor(currentTimeOfDay);
      var level := Beatsin8(wave, 10, 200, 255);
      FillSolid(NScale8(cloudColor, level));
    }

    method EffectPartlyCloudy()
      requires Valid()
      modifies leds
      ensures leds[..] == PartlyCloudyFrame(currentTimeOfDay, animationStep)
    {
      var sunColor := SunColor(currentTimeOfDay);
      var cloudColor := CloudColor(currentTimeOfDay);
      ghost var bands := PartlyCloudyFrame(currentTimeOfDay, animationStep);
      for i := 0 to NUM_LEDS
        invariant forall k :: 0 <= k < i ==> leds[k] == bands[k]
      {
        if (i / BandWidth + animationStep / BandPeriod) % 2 == 0 {
          leds[i] := sunColor;
        } else {
          leds[i] := cloudColor;
        }
      }
    }

    method EffectRain(rng: RandomSource)
      requires Valid()
      modifies leds, rng
      ensures Frame(leds[..], rng.tape) == RainFrame(old(leds[..]), animationStep, old(rng.tape))
    {
      FadeToColor(RainBase, RainFade);
      if animationStep % RainEvery == 0 {
        var pos := rng.Random(NUM_LEDS);
        leds[pos] := Droplet;
      }
    }

    method EffectStorm(rng: RandomSource)
      requires Valid()
      modifies leds, rng
      ensures Frame(leds[..], rng.tape) == StormFrame(old(leds[..]), old(rng.tape))
    {
      FadeToColor(StormBase, StormFade);
      ghost var faded := leds[..];
      ghost var tape := rng.tape;
      assert faded == Faded(old(leds[..]), StormBase, StormFade);
      var flash := rng.Random(100);
      if flash < FlashChance {
        FillSolid(White);
      } else {
        var partial := rng.Random(100);
        if partial < SegmentChance {
          var start := rng.Random(NUM_LEDS - SegmentWidth);
          for i := start to start + SegmentWidth
            modifies leds
            invariant forall k :: 0 <= k < NUM_LEDS ==> leds[k] == if start <= k < i then SegmentColor else faded[k]
          {
            leds[i] := SegmentColor;
          }
          assert leds[..] == Painted(faded, start, start + SegmentWidth, SegmentColor);
          assert start == Draw(Rest(Rest(tape)), NUM_LEDS - SegmentWidth);
        }
      }
    }

    method EffectSnow(rng: RandomSource)
      requires Valid()
      modifies leds, rng
      ensures Frame(leds[..], rng.tape) == SnowFrame(old(leds[..]), animationStep, old(rng.tape))
    {
      FadeToColor(SnowBase, SnowFade);
      if animationStep % SnowEvery == 0 {
        var pos := rng.Random(NUM_LEDS);
        leds[pos] := White;
      }
      Twinkle(rng, Sparkle, Sparkles);
    }

    method EffectFog(wave: nat -> byte)
      requires Valid()
      modifies leds
      ensures leds[..] == FogFrame(wave)
    {
      var level := Beatsin8(wave, 5, 150, 230);
      FillSolid(RGB(level, level, level));
    }

    method EffectError(wave: nat -> byte)
      requires Valid()
      modifies leds
      ensures leds[..] == ErrorFrame(wave)
    {
      var pulse := Beatsin8(wave, 30, 50, 200);
      FillSolid(RGB(pulse, 0, 0));
    }

    /** `fill_solid(leds, NUM_LEDS, c)`. */
    method FillSolid(c: RGB)
      requires Valid()
      modifies leds
      ensures leds[..] == Solid(c)
    {
      for i := 0 to NUM_LEDS
        invariant forall k :: 0 <= k < i ==> leds[k] == c
      {
        leds[i] := c;
      }
    }

    /** `fadeToColor`: each pixel darkened by `amount`, then `color` added. */
    method FadeToColor(color: RGB, amount: byte)
      requires Valid()
      modifies leds
      ensures leds[..] == Faded(old(leds[..]), color, amount)
    {
      for i := 0 to NUM_LEDS
        invariant forall k :: 0 <= k < i ==> leds[k] == FadeTowards(old(leds[k]), color, amount)
        invariant forall k :: i <= k < NUM_LEDS ==> leds[k] == old(leds[k])
      {
        leds[i] := Add(FadeToBlackBy(leds[i], amount), color);
      }
    }

    /** `twinkle`: `numSparkles` random pixels set to `baseColor`. */
    method Twinkle(rng: RandomSource, baseColor: RGB, numSparkles: nat)
      requires Valid()
      modifies leds, rng
      ensures Frame(leds[..], rng.tape) == Twinkled(old(leds[..]), baseColor, numSparkles, old(rng.tape))
    {
      for i := 0 to numSparkles
        invariant Twinkled(leds[..], baseColor, numSparkles - i, rng.tape)
               == Twinkled(old(leds[..]), baseColor, numSparkles, old(rng.tape))
      {
        var pos := rng.Random(NUM_LEDS);
        leds[pos] := baseColor;
      }
    }
  }

  /** `BandsSwap` needs an unbounded step. The last band phase before the
      32-bit counter wraps lasts only 46 steps (2^32 is not a multiple of 50),
      and step 0 starts a new even phase: a window of 50 steps that crosses
      the wrap trades sun and cloud exactly when it starts in that short odd
      phase, so the four windows starting at 2^32 - 50 .. 2^32 - 47 keep every
      pixel's colour. */
  lemma {:induction false} BandsAcrossWrap(tod: TimeOfDay, s: nat, i: nat)
    requires STEP_MODULUS - BandPeriod <= s < STEP_MODULUS && i < NUM_LEDS
    ensures PartlyCloudyFrame(tod, s)[i] == PartlyCloudyFrame(tod, (s + BandPeriod) % STEP_MODULUS)[i]
        <==> s < STEP_MODULUS - 46
  {
    var t := (s + BandPeriod) % STEP_MODULUS;
    assert t == s + BandPeriod - STEP_MODULUS;
    assert t / BandPeriod == 0;
    assert s / BandPeriod == if s < STEP_MODULUS - 46 then 85899344 else 85899345;
    SunIsNeverCloud(tod);
    PartlyCloudyBands(tod, s, i, i);
    PartlyCloudyBands(tod, t, i, i);
  }
}
