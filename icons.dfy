/** The weather glyphs shown next to a condition (each a pictograph followed by the
    emoji presentation selector U+FE0F). */
module Icons {

  const Sunny := "\U{2600}\U{FE0F}"
  const Cloudy := "\U{2601}\U{FE0F}"
  const LightRain := "\U{1F326}\U{FE0F}"
  const HeavyRain := "\U{1F327}\U{FE0F}"
  const Snow := "\U{2744}\U{FE0F}"
  const Thunderstorm := "\U{26C8}\U{FE0F}"
  /** Shown for any condition that is not recognised. */
  const SunBehindCloud := "\U{1F324}\U{FE0F}"
}
