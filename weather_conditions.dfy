/**
 * The weather-conditions table of the dashboard: the icon for a condition and the
 * colour class for the impact a condition had on the works.
 */
module WeatherConditions {
  import opened JsString
  import opened Icons

  /** The six conditions the table has an icon for, in lower case. */
  const KnownConditions: set<string> :=
    {"soleggiato", "nuvoloso", "pioggia leggera", "pioggia forte", "neve", "temporale"}

  /** The icon for a condition, matched ignoring case; unknown conditions get the
      sun-behind-cloud icon. */
  function WeatherIcon(condition: string): (icon: string)
    ensures icon == Sunny <==> Lower(condition) == "soleggiato"
    ensures icon == Cloudy <==> Lower(condition) == "nuvoloso"
    ensures icon == LightRain <==> Lower(condition) == "pioggia leggera"
    ensures icon == HeavyRain <==> Lower(condition) == "pioggia forte"
    ensures icon == Snow <==> Lower(condition) == "neve"
    ensures icon == Thunderstorm <==> Lower(condition) == "temporale"
    ensures icon == SunBehindCloud <==> Lower(condition) !in KnownConditions
  {
    match Lower(condition)
    case "soleggiato" => Sunny
    case "nuvoloso" => Cloudy
    case "pioggia leggera" => LightRain
    case "pioggia forte" => HeavyRain
    case "neve" => Snow
    case "temporale" => Thunderstorm
    case _ => SunBehindCloud
  }

  /** Conditions that differ only in the case of their letters get the same icon. */
  lemma WeatherIconIgnoresCase(a: string, b: string)
    requires Lower(a) == Lower(b)
    ensures WeatherIcon(a) == WeatherIcon(b)
  {
  }

  const Severe := "text-red-600"
  const Moderate := "text-amber-600"
  const Harmless := "text-green-600"

  /** The colour of an impact description, searched ignoring case: any mention of a
      suspension ("sospensione") is red, even alongside a delay; otherwise a delay
      ("ritardo") is amber; anything else is green. */
  function ImpactColor(impacts: string): (color: string)
    ensures color in {Severe, Moderate, Harmless}
    ensures color == Severe <==> Contains(Lower(impacts), "sospensione")
    ensures color == Moderate <==> !Contains(Lower(impacts), "sospensione") && Contains(Lower(impacts), "ritardo")
    ensures color == Harmless <==> !Contains(Lower(impacts), "sospensione") && !Contains(Lower(impacts), "ritardo")
  {
    if Contains(Lower(impacts), "sospensione") then Severe
    else if Contains(Lower(impacts), "ritardo") then Moderate
    else Harmless
  }

  /** A description mentioning both a suspension and a delay, at any offsets, is red. */
  lemma SuspensionOutranksDelay(impacts: string, i: nat, j: nat)
    requires OccursAt(Lower(impacts), "sospensione", i)
    requires OccursAt(Lower(impacts), "ritardo", j)
    ensures ImpactColor(impacts) == Severe
  {
    ContainsIff(Lower(impacts), "sospensione");
  }
}
