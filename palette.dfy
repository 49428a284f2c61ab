/** The colour lookups of the animation engine (LEDEffects.cpp `getSunColor`,
    `getAmbientBrightness`, `getCloudColor`): exact tables keyed by the
    daylight period. */
module Palette {
  import opened Config
  import opened FastLed

  /** `getSunColor`. */
  function SunColor(t: TimeOfDay): RGB {
    match t
    case Night => RGB(0, 0, 0)
    case Dawn => RGB(100, 50, 150)
    case Sunrise => RGB(255, 100, 50)
    case Day => RGB(255, 220, 100)
    case Sunset => RGB(255, 80, 20)
    case Dusk => RGB(150, 50, 100)
  }

  /** `getAmbientBrightness`. */
  function AmbientBrightness(t: TimeOfDay): byte {
    match t
    case Night => 30
    case Dawn => 80
    case Sunrise => 150
    case Day => 255
    case Sunset => 150
    case Dusk => 80
  }

  /** `getCloudColor`: a grey at the ambient brightness. */
  function CloudColor(t: TimeOfDay): RGB {
    var b := AmbientBrightness(t);
    RGB(b, b, b)
  }

  /** The two tables, row by row, and the cloud colour as a grey. */
  lemma ColourTable(t: TimeOfDay)
    ensures SunColor(Night) == RGB(0, 0, 0) && AmbientBrightness(Night) == 30
    ensures SunColor(Dawn) == RGB(100, 50, 150) && AmbientBrightness(Dawn) == 80
    ensures SunColor(Sunrise) == RGB(255, 100, 50) && AmbientBrightness(Sunrise) == 150
    ensures SunColor(Day) == RGB(255, 220, 100) && AmbientBrightness(Day) == 255
    ensures SunColor(Sunset) == RGB(255, 80, 20) && AmbientBrightness(Sunset) == 150
    ensures SunColor(Dusk) == RGB(150, 50, 100) && AmbientBrightness(Dusk) == 80
    ensures CloudColor(t) == RGB(AmbientBrightness(t), AmbientBrightness(t), AmbientBrightness(t))
  {
  }

  /** The sun is dark exactly at night. */
  lemma SunDarkOnlyAtNight(t: TimeOfDay)
    ensures SunColor(t) == Black <==> t == Night
  {
  }

  /** No period's sun colour is its cloud colour, so the bands of a partly
      cloudy sky are always told apart. */
  lemma SunIsNeverCloud(t: TimeOfDay)
    ensures SunColor(t) != CloudColor(t)
  {
  }

  /** Ambient light rises through the morning, peaks by day and falls back
      symmetrically through the evening. */
  lemma BrightnessArc(t: TimeOfDay)
    ensures AmbientBrightness(Night) < AmbientBrightness(Dawn) < AmbientBrightness(Sunrise) < AmbientBrightness(Day)
    ensures AmbientBrightness(Sunset) == AmbientBrightness(Sunrise)
    ensures AmbientBrightness(Dusk) == AmbientBrightness(Dawn)
    ensures AmbientBrightness(t) <= AmbientBrightness(Day)
  {
  }
}
