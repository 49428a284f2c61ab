# MeteoCloud core in Dafny

MeteoCloud is an ESP32 lamp that shows the current weather on a 60-pixel LED
strip, tinted by the period of the day. This project models three parts of it
and proves properties of them:

- **The animation engine** (`LEDEffects`). It is modelled as the class
  `Effects.LedEffects`, which owns a 60-pixel `array<RGB>`, the current weather,
  the current period of the day and a 32-bit step counter.
  - `Update` advances the counter and runs exactly one effect on the buffer in
    place.
  - Each effect method is proved to leave the buffer equal to a pure frame
    function in `Frames`. The lemmas about the frames then state what each
    effect draws.
  - The colour tables are in `Palette`.
  - The FastLED arithmetic the effects use (`scale8`, `qadd8`, `nscale8`,
    `fadeToBlackBy`, `+=`, `beatsin8`) is in `FastLed`.
  - Arduino's `random` is in `Arduino`.
- **The day-period clock** (`TimeManager`). It is modelled as the class
  `Timekeeping.TimeManager`, whose methods are proved against pure functions on
  `ClockState`.
  - The period chain `PeriodAt` classifies an instant by half-open interval
    tests around the stored sunrise and sunset.
  - `Updated` holds the recompute gate of `update`.
  - `SunTimesFor` holds the 06:00/18:00 placeholder schedule of
    `calculateSunTimes`.
  - The getters `GetSunriseTime`, `GetSunsetTime` and `IsTimeInitialized`
    return the fields.
- **The condition classifier** of the weather client (`WeatherApi`). It covers
  `parseCondition`: ASCII lower-casing, `indexOf`, and the priority-ordered
  keyword chain. It also covers `getConditionName`.

The shared enumerations and the strip length are in `Config`.

Two things from outside the program become inputs of the model:

- `random(n)` reads a tape of draws held by `Arduino.RandomSource`. Each call
  consumes one draw, reduced below `n`.
- `beatsin8(bpm, lo, hi)` reads the sine value `wave(bpm)` of a caller-supplied
  oscillator. It is then scaled into `[lo, hi]` exactly as FastLED does.

The clock's readings are parameters too:

- "now" (`time(nullptr)`) is an integer instant.
- `getLocalTime` followed by `mktime` becomes `localDay: Option<int>`: the
  instant at which the current local date began, or `None` when local time is
  unavailable.

The code fixes four behaviours:

- The period boundaries are compared linearly on absolute instants
  (TimeManager.cpp:64-76). Nothing wraps around midnight.
- The sun times are recomputed when more than 86400 s have passed since the
  last recompute (TimeManager.cpp:44), not when the calendar date changes. The
  comment at TimeManager.cpp:43 says "once per day (at midnight)"; see
  "## Findings".
- A storm frame has either a full flash or a partial flash, never both, because
  the second test sits in an `else if` (LEDEffects.cpp:108-111).
- `showError` only switches the weather to `Unknown` (LEDEffects.cpp:219-221),
  whose effect is the red error pulse. There is no separate fault flag.

## Model

| member | source | states |
|---|---|---|
| FastLed.Scale8 | LEDEffects.cpp:72 | FastLED's `scale8` never exceeds either operand, and scaling by 255 is the identity |
| FastLed.QAdd8 | LEDEffects.cpp:208 | saturating 8-bit addition: at least each operand, at most their sum, exactly the sum when that fits in a byte, and 255 when it does not |
| FastLed.NScale8 | LEDEffects.cpp:72 | `nscale8` scales each channel by `Scale8`; the resulting bounds are stated by `Scale8`, `FadeTowards` and `OscillatingFills` |
| FastLed.FadeToBlackBy | LEDEffects.cpp:207 | `fadeToBlackBy(amount)` is `nscale8(255 - amount)`; its effect on a pixel is bounded by `FadeTowards` and `FadedBounds` |
| FastLed.Add | LEDEffects.cpp:208 | `+=` adds channel by channel through `QAdd8`; its bounds are stated by `QAdd8` and `FadeTowards` |
| FastLed.FadeTowards | LEDEffects.cpp:205-210 | one pixel of `fadeToColor` ends at least as bright as the added colour in each channel, and at most the old pixel plus that colour |
| FastLed.Beatsin8 | LEDEffects.cpp:71 | `beatsin8(bpm, lo, hi)` lies within `[lo, hi]` whatever the oscillator reads |
| Arduino.Draw | LEDEffects.cpp:98 | `random(n)` is below `n`, and is the drawn value itself when that is already below `n` |
| Arduino.Rest | LEDEffects.cpp:98 | each call of `random` consumes exactly one draw |
| Arduino.RandomSource.Random | LEDEffects.cpp:98 | returns a value below `n`, namely the next draw reduced below `n`, and advances the tape by one draw |
| Palette.SunColor | LEDEffects.cpp:148-177 | the sun colour of each period; its table is stated by `ColourTable`, `SunDarkOnlyAtNight` and `SunIsNeverCloud` |
| Palette.AmbientBrightness | LEDEffects.cpp:185-203 | the ambient brightness of each period; its table is stated by `ColourTable` and `BrightnessArc` |
| Palette.CloudColor | LEDEffects.cpp:179-183 | the grey of the ambient brightness, as `ColourTable` states |
| Palette.ColourTable | LEDEffects.cpp:148-203 | the sun colour and ambient brightness of every period, and the cloud colour as a grey of the ambient brightness |
| Palette.SunDarkOnlyAtNight | LEDEffects.cpp:148-177 | the sun colour is black exactly at night |
| Palette.SunIsNeverCloud | LEDEffects.cpp:148-183 | in every period the sun and cloud colours differ, so partly cloudy bands are always visible |
| Palette.BrightnessArc | LEDEffects.cpp:185-203 | ambient brightness rises strictly from night through dawn and sunrise to day, the evening mirrors the morning, and day is the maximum |
| Frames.SparklePositions | LEDEffects.cpp:212-217 | `twinkle` draws one position per sparkle, each within the strip |
| Frames.ClearDayIsWarmYellow | LEDEffects.cpp:60-64 | a clear day fills every pixel with warm yellow (255, 220, 100) |
| Frames.FadedBounds | LEDEffects.cpp:205-210 | after `fadeToColor` every pixel is at least the target colour and at most the old pixel plus that colour |
| Frames.PartlyCloudyBands | LEDEffects.cpp:77-90 | pixel `i` shows the sun colour exactly when `i/10 + step/50` is even and the cloud colour exactly when it is odd, and pixels of one ten-pixel band agree |
| Frames.BandsSwap | LEDEffects.cpp:84 | after 50 more steps every pixel has changed colour, while the 32-bit step counter does not wrap: the sun and cloud bands trade places |
| Effects.BandsAcrossWrap | LEDEffects.cpp:28-84 | the last band phase before the 32-bit counter wraps lasts 46 steps, not 50: a 50-step window across the wrap trades every pixel's colour exactly when it starts after 2^32 - 47, so the windows starting at 2^32 - 50 .. 2^32 - 47 keep their colours |
| Frames.RainDroplet | LEDEffects.cpp:92-101 | on every third step exactly the drawn pixel becomes a bright-blue droplet using one draw; otherwise the frame is the fade and uses none; no pixel ever drops below the dark-blue base |
| Frames.MultiplesCount | LEDEffects.cpp:97 | among steps 1..n exactly n / m are multiples of m |
| Frames.ThousandRainFrames | LEDEffects.cpp:97 | the first thousand updates after `setWeatherEffect` resets the step run steps 1..1000, and exactly 333 of them drop a droplet |
| Frames.StormFadeIsNeverWhite | LEDEffects.cpp:105 | the storm fade (scale by 235, then add (10, 10, 30)) can never produce white |
| Frames.StormAtMostOneFlash | LEDEffects.cpp:103-118 | a first draw below 5 whitens the whole strip using one draw; otherwise nothing is white, and a second draw below 3 paints ten pixels (inside the strip, never the last one) from a third draw's start using three draws, else the frame is the fade using two |
| Frames.TwinkleWrites | LEDEffects.cpp:212-217 | `twinkle` sets every drawn position to the sparkle colour, leaves every other pixel alone and uses exactly one draw per sparkle |
| Frames.SnowFlakeAndSparkles | LEDEffects.cpp:120-132 | every fifth step a white flake lands at the first draw, then two sparkles land at the next two draws, and every other pixel is the fade |
| Frames.OscillatingFills | LEDEffects.cpp:66-146 | cloudy, fog and error frames are uniform fills; the cloud grey never exceeds the ambient brightness, fog stays in [150, 230], and the error pulse is pure red in [50, 200] |
| Effects.LedEffects.constructor | LEDEffects.cpp:7-11 | a fresh 60-pixel buffer with unknown weather, by day, at step 0 |
| Effects.LedEffects.SetWeatherEffect | LEDEffects.cpp:21-25 | sets the weather and period and restarts the step at 0, keeping the pixels so the next effect fades from what is shown |
| Effects.LedEffects.ShowError | LEDEffects.cpp:219-221 | switches the weather to unknown and changes nothing else |
| Effects.LedEffects.Clear | LEDEffects.cpp:223-226 | every pixel black |
| Effects.LedEffects.Update | LEDEffects.cpp:27-55 | the step advances by one modulo 2^32, the weather and period are kept, and the buffer and random tape become the frame of the one effect the weather selects (unknown selects the error pulse) |
| Effects.LedEffects.EffectClear | LEDEffects.cpp:60-64 | the strip is filled with the sun colour of the period |
| Effects.LedEffects.EffectCloudy | LEDEffects.cpp:66-75 | the strip is filled with the cloud grey dimmed by a 10 bpm wave in [200, 255] |
| Effects.LedEffects.EffectPartlyCloudy | LEDEffects.cpp:77-90 | the in-place loop leaves exactly the banded sun/cloud frame |
| Effects.LedEffects.EffectRain | LEDEffects.cpp:92-101 | the buffer and tape become the rain frame of the old buffer |
| Effects.LedEffects.EffectStorm | LEDEffects.cpp:103-118 | the buffer and tape become the storm frame of the old buffer, including the in-place segment loop |
| Effects.LedEffects.EffectSnow | LEDEffects.cpp:120-132 | the buffer and tape become the snow frame of the old buffer |
| Effects.LedEffects.EffectFog | LEDEffects.cpp:134-140 | the strip is filled with the fog grey of a 5 bpm wave in [150, 230] |
| Effects.LedEffects.EffectError | LEDEffects.cpp:142-146 | the strip is filled with the red of a 30 bpm pulse in [50, 200] |
| Effects.LedEffects.FillSolid | LEDEffects.cpp:63 | `fill_solid`: every pixel becomes the colour |
| Effects.LedEffects.FadeToColor | LEDEffects.cpp:205-210 | the in-place loop leaves every pixel faded by the amount with the colour added |
| Effects.LedEffects.Twinkle | LEDEffects.cpp:212-217 | the in-place loop leaves the twinkled frame and consumes one draw per sparkle |
| Timekeeping.TimeManager.constructor | TimeManager.cpp:7-12 | no sun times, never updated, not synchronised |
| Timekeeping.TimeManager.Begin | TimeManager.cpp:27-37 | synchronised exactly when local time is available, and then the sun times are 06:00 and 18:00 of the local date |
| Timekeeping.TimeManager.Update | TimeManager.cpp:40-48 | recomputes the sun times and records `now` when more than 86400 s have passed or nothing was recorded; otherwise nothing changes |
| Timekeeping.TimeManager.CalculateSunTimes | TimeManager.cpp:79-107 | sunrise at 06:00 and sunset at 18:00 of the local date; without local time nothing changes; the synchronisation flag is kept |
| Timekeeping.TimeManager.GetSunriseTime | TimeManager.cpp:143-145 | returns the stored sunrise, which `Begin` and `CalculateSunTimes` state is 06:00 of the local date |
| Timekeeping.TimeManager.GetSunsetTime | TimeManager.cpp:147-149 | returns the stored sunset, which `Begin` and `CalculateSunTimes` state is 18:00 of the local date |
| Timekeeping.TimeManager.IsTimeInitialized | TimeManager.cpp:163-165 | true exactly when `Begin` found local time; `CalculateSunTimes` never changes it |
| Timekeeping.PeriodAt | TimeManager.cpp:58-76 | the interval chain; `PeriodIntervals` and `BoundariesHalfOpen` state each period's interval |
| Timekeeping.TimeManager.GetTimeOfDay | TimeManager.cpp:50-77 | day while unsynchronised, whatever the stored times; otherwise the interval chain on the stored times |
| Timekeeping.UnsynchronisedIsDay | TimeManager.cpp:51-53 | an unsynchronised clock reports day |
| Timekeeping.BoundariesHalfOpen | TimeManager.cpp:58-76 | each period begins at its own boundary instant and the instant where one ends belongs to the next |
| Timekeeping.PeriodIntervals | TimeManager.cpp:58-76 | when sunrise ends no later than sunset, each period holds exactly on its half-open interval and night is before dawn or from the end of dusk |
| Timekeeping.DuskFollowsSunset | TimeManager.cpp:60-61 | dusk ends 30 minutes after the sunset transition ends |
| Timekeeping.ScheduleOrdered | TimeManager.cpp:95-107 | the 06:00/18:00 schedule orders all six boundaries strictly inside its date |
| Timekeeping.UpdateIdempotent | TimeManager.cpp:40-48 | a second update at the same non-zero instant changes nothing |
| Timekeeping.RecomputesAtMostDaily | TimeManager.cpp:44 | after a recompute at a non-zero instant, the next one is due exactly when more than a day has passed |
| Timekeeping.UpdateFrame | TimeManager.cpp:40-48 | a closed gate changes nothing, and the synchronisation flag is never touched |
| Timekeeping.NoLocalTimeStillAdvances | TimeManager.cpp:44-89 | without local time the sun times stay put but the gate still records `now` |
| Timekeeping.StaleScheduleAfterMidnight | TimeManager.cpp:43-47 | as written, the next date runs on the old schedule and reads as night until a full day after the last recompute |
| Timekeeping.NextSunriseShownAsNight | TimeManager.cpp:43-47 | booted at 10:00, the next day's 06:00 sunrise is classified as night |
| Timekeeping.DailyScheduleIsToday | TimeManager.cpp:43 | with a date-based gate, the schedule is always today's, so dawn and sunrise show every day, and updating again is a no-op |
| WeatherApi.LowerChar | WeatherAPI.cpp:90 | `toLowerCase` maps exactly A–Z to a–z and leaves every other character alone |
| WeatherApi.ToLower | WeatherAPI.cpp:89-90 | the lowered copy has the same length, is lowered character by character, and has no upper-case letter |
| WeatherApi.IndexOf | WeatherAPI.cpp:92 | `indexOf` returns the first position where the pattern occurs, and -1 exactly when it occurs nowhere |
| WeatherApi.ParseCondition | WeatherAPI.cpp:85-110 | `parseCondition`; its results are stated by `CaseInsensitive`, `ClearWins`, `CloudRule`, `StormBeforeRain` and `UnknownIffNoKeyword` |
| WeatherApi.Classify | WeatherAPI.cpp:92-109 | the keyword chain on the lowered text; `UnknownIffNoKeyword` and the lemmas beside it state its results |
| WeatherApi.ConditionName | WeatherAPI.cpp:132-143 | `getConditionName`; `NamesDistinct` and `NameRoundTrip` state its names |
| WeatherApi.LowerKeepsPattern | WeatherAPI.cpp:89-92 | lowering the text keeps every occurrence of a lower-case keyword |
| WeatherApi.CaseInsensitive | WeatherAPI.cpp:85-110 | texts equal up to ASCII case are classified alike |
| WeatherApi.ClearWins | WeatherAPI.cpp:92-93 | the result is clear exactly when "clear" occurs in any case |
| WeatherApi.CloudRule | WeatherAPI.cpp:94-98 | without "clear", "cloud" gives partly cloudy exactly when "few" or "scatter" occurs, and cloudy otherwise; both need "cloud" |
| WeatherApi.StormBeforeRain | WeatherAPI.cpp:99-102 | thunder or storm wins over rain, and a rain result means neither occurs |
| WeatherApi.UnknownIffNoKeyword | WeatherAPI.cpp:92-109 | the result is unknown exactly when none of the nine keywords occurs |
| WeatherApi.NamesDistinct | WeatherAPI.cpp:132-143 | condition names are pairwise distinct and only unknown is named "Unknown" |
| WeatherApi.NameRoundTrip | WeatherAPI.cpp:85-143 | parsing a condition's name gives that condition back, except "Partly Cloudy", which parses as cloudy |

## Left out

- `LEDEffects::begin`, `FastLED.show()` and the global brightness are calls into the LED driver. The model covers only the pixel buffer.
- FastLED's `scale8`, `nscale8`, `qadd8` and `beatsin8` are modelled from the library's documented behaviour. The library's source is not part of this model. The oscillator phase, which depends on `millis()`, is a parameter.
- `random` is a tape of draws. Its generator and seeding are not modelled.
- The `default` branches of `getSunColor` (white) and `getAmbientBrightness` (128) cannot be reached, because every period has its own case.
- `TimeManager::begin`'s NTP configuration and its wait loop of up to twenty 500 ms polls are left out. `Begin` starts after the wait.
- `getLocalTime` and `mktime` become the `localDay` parameter. The daylight-saving behaviour of `mktime` is not modelled.
- `getCurrentTimeString` and `timeToHourMin` format or log text. Neither affects state.
- `time_t` is an unbounded integer here. Overflow in 2038 is not modelled.
- Frames.BandsSwap: holds for the unbounded step of `PartlyCloudyFrame`. The 32-bit `animationStep` makes the band phase before the wrap 46 steps long, so the 50-step windows starting at 2^32 - 50 .. 2^32 - 47 do not swap, as `Effects.BandsAcrossWrap` states.
- Text is a sequence of characters without NUL. Arduino's `String` stops `toLowerCase` and the search inside `indexOf` at the first NUL, and its `indexOf` returns -1 on an empty text even for an empty pattern. Neither matters for the non-empty keywords unless the text holds a NUL. ASCII keywords match the same way in UTF-8 bytes as in characters.
- `WeatherAPI::begin`, `fetchForecast` (HTTP, JSON) and the temperature, humidity, description and validity getters are left out. They are network I/O or plain field reads.

## Findings

| source | as written | input that shows it | evidently intended | confidence | as-written member | corrected member |
|---|---|---|---|---|---|---|
| TimeManager.cpp:43-47 | sun times are recomputed only once more than 86400 s have passed since the last recompute | boot at 10:00 on date D; at 06:00 on D+1 the gate is closed (20 h elapsed), the stored schedule is D's, and the period reads night instead of sunrise | recompute "once per day (at midnight)", so each date uses its own schedule | high (not executed) | Timekeeping.StaleScheduleAfterMidnight, Timekeeping.NextSunriseShownAsNight | Timekeeping.DailyScheduleIsToday (on Timekeeping.UpdatedDaily) |

The class `Timekeeping.TimeManager` keeps the gate as written, since it models
the program. The corrected gate `Timekeeping.UpdatedDaily` is stated and proved
beside it.
