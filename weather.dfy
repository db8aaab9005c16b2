/**
 * The canned "historical weather" lookup of the server: a fixed table of six
 * destination patterns, a first-match search over the table's keys, and a
 * month-to-season rule. The month is an input (0 = January .. 11 = December):
 * parsing the request's date into a month is not part of this model.
 */
module Weather {
  import opened Wrappers
  import opened Text

  /** A month index as `Date.getMonth` returns it: 0 is January, 11 is December. */
  type Month = m: int | 0 <= m <= 11

  datatype Season = Winter | Spring | Summer | Fall

  datatype Temperature = Temperature(high: int, low: int)

  /** The five clothing slots of a pattern, each an ordered list of suggestions. */
  datatype Clothing = Clothing(
    tops: seq<string>,
    bottoms: seq<string>,
    outerwear: seq<string>,
    footwear: seq<string>,
    accessories: seq<string>)

  /** One entry of the pattern table, already specialised to the month of the request. */
  datatype Pattern = Pattern(
    temperatures: map<Season, Temperature>,
    conditions: string,
    recommendations: seq<string>,
    clothingSuggestions: Clothing,
    weatherEssentials: seq<string>)

  /** The payload the weather endpoint returns. */
  datatype Forecast = Forecast(
    destination: string,
    date: string,
    season: Season,
    temperature: Temperature,
    conditions: string,
    recommendations: seq<string>,
    clothingSuggestions: Clothing,
    weatherEssentials: seq<string>,
    source: string)

  const Source := "Historical weather patterns"

  /** The six entries of the pattern table. */
  datatype Region = Caribbean | Bahamas | Mediterranean | Alaska | Norway | Tropical

  /** The key each entry is stored under in the table. */
  function Key(r: Region): string {
    match r
    case Caribbean => "caribbean"
    case Bahamas => "bahamas"
    case Mediterranean => "mediterranean"
    case Alaska => "alaska"
    case Norway => "norway"
    case Tropical => "tropical"
  }

  /** The table's entries in the order `Object.keys` visits them. */
  const Regions: seq<Region> := [Caribbean, Bahamas, Mediterranean, Alaska, Norway, Tropical]

  /** The entry used when no key matches. */
  const Fallback := Tropical

  predicate HurricaneMonth(month: Month) { month >= 6 && month <= 11 }

  predicate MedSummerMonth(month: Month) { month >= 6 && month <= 8 }

  /** The four seasonal temperatures of each entry. */
  function Temperatures(r: Region): (t: map<Season, Temperature>)
    ensures Winter in t && Spring in t && Summer in t && Fall in t
  {
    match r
    case Caribbean => map[Winter := Temperature(82, 73), Spring := Temperature(85, 76), Summer := Temperature(88, 79), Fall := Temperature(86, 77)]
    case Bahamas => map[Winter := Temperature(77, 65), Spring := Temperature(81, 71), Summer := Temperature(87, 78), Fall := Temperature(83, 74)]
    case Mediterranean => map[Winter := Temperature(59, 43), Spring := Temperature(68, 54), Summer := Temperature(82, 68), Fall := Temperature(73, 59)]
    case Alaska => map[Winter := Temperature(23, 11), Spring := Temperature(46, 32), Summer := Temperature(65, 50), Fall := Temperature(44, 29)]
    case Norway => map[Winter := Temperature(30, 19), Spring := Temperature(50, 36), Summer := Temperature(66, 52), Fall := Temperature(48, 37)]
    case Tropical => map[Winter := Temperature(80, 70), Spring := Temperature(83, 73), Summer := Temperature(86, 76), Fall := Temperature(84, 74)]
  }

  function CaribbeanPattern(month: Month): (p: Pattern)
    ensures p.temperatures == Temperatures(Caribbean)
  {
    Pattern(
      Temperatures(Caribbean),
      if HurricaneMonth(month) then "Hurricane season - pack rain gear" else "Generally sunny and warm",
      ["Lightweight clothing", "Sunscreen", "Hat", "Swimwear", "Rain jacket (if hurricane season)"],
      Clothing(
        ["Cotton t-shirts", "Tank tops", "Light blouses", "Short-sleeve shirts", "Cover-ups"],
        ["Shorts", "Light pants", "Capris", "Sundresses", "Swimwear"],
        if HurricaneMonth(month) then ["Light rain jacket", "Windbreaker"] else ["Light cardigan", "Thin sweater"],
        ["Sandals", "Flip-flops", "Boat shoes", "Water shoes", "Light sneakers"],
        ["Sun hat", "Sunglasses", "Beach bag", "Waterproof phone case"]),
      ["SPF 30+ sunscreen", "After-sun lotion", "Insect repellent", "Umbrella", "Portable fan"])
  }

  function BahamasPattern(month: Month): (p: Pattern)
    ensures p.temperatures == Temperatures(Bahamas)
  {
    Pattern(
      Temperatures(Bahamas),
      if HurricaneMonth(month) then "Hurricane season possible" else "Pleasant weather",
      ["Beach attire", "Light jacket for evening", "Sunglasses", "Flip-flops"],
      Clothing(
        ["Lightweight shirts", "Tank tops", "Beach cover-ups", "Polo shirts"],
        ["Swim shorts", "Board shorts", "Light dresses", "Casual shorts"],
        ["Light sweater for evening", "Windbreaker"],
        ["Beach sandals", "Water shoes", "Canvas sneakers"],
        ["Sun hat", "Beach towel", "Waterproof watch"]),
      ["Reef-safe sunscreen", "Aloe vera gel", "Beach umbrella", "Cooler bag"])
  }

  function MediterraneanPattern(month: Month): (p: Pattern)
    ensures p.temperatures == Temperatures(Mediterranean)
  {
    Pattern(
      Temperatures(Mediterranean),
      if MedSummerMonth(month) then "Hot and dry"
      else if month >= 11 || month <= 2 then "Cool and possibly rainy"
      else "Mild weather",
      ["Layered clothing", "Comfortable walking shoes", "Light rain jacket", "Sun hat"],
      Clothing(
        if MedSummerMonth(month) then ["Linen shirts", "Cotton blouses", "Light tops"]
        else ["Long-sleeve shirts", "Light sweaters", "Cardigans"],
        if MedSummerMonth(month) then ["Linen pants", "Light shorts", "Maxi dresses"]
        else ["Jeans", "Pants", "Long dresses with tights"],
        if MedSummerMonth(month) then ["Light shawl", "Thin cardigan"]
        else ["Jacket", "Trench coat", "Warm sweater"],
        ["Comfortable walking shoes", "Sandals", "Boat shoes", "Sneakers"],
        ["Sun hat", "Scarf", "Crossbody bag", "Sunglasses"]),
      if MedSummerMonth(month) then ["High SPF sunscreen", "Cooling towel", "Hand fan"]
      else ["Compact umbrella", "Moisturizer", "Lip balm", "Rain poncho"])
  }

  function AlaskaPattern(month: Month): (p: Pattern)
    ensures p.temperatures == Temperatures(Alaska)
  {
    Pattern(
      Temperatures(Alaska),
      "Cool temperatures year-round, possible rain",
      ["Warm layers", "Waterproof jacket", "Warm hat and gloves", "Sturdy boots", "Thermal underwear"],
      Clothing(
        ["Thermal base layers", "Fleece jackets", "Wool sweaters", "Long-sleeve shirts", "Insulated vests"],
        ["Thermal leggings", "Warm pants", "Jeans", "Waterproof pants", "Long underwear"],
        ["Waterproof parka", "Insulated jacket", "Rain poncho", "Wind-resistant shell"],
        ["Waterproof hiking boots", "Warm socks", "Boot warmers", "Non-slip sole shoes"],
        ["Warm hat", "Insulated gloves", "Scarf", "Neck warmer", "Waterproof gloves"]),
      ["Hand/foot warmers", "Waterproof phone case", "Thermal blanket", "Lip balm with SPF",
       "Moisturizing lotion", "Binoculars for wildlife"])
  }

  function NorwayPattern(month: Month): (p: Pattern)
    ensures p.temperatures == Temperatures(Norway)
  {
    Pattern(
      Temperatures(Norway),
      "Cool and potentially wet",
      ["Warm clothing", "Waterproof outerwear", "Thermal layers", "Warm accessories", "Waterproof boots"],
      Clothing(
        ["Merino wool base layers", "Fleece mid-layers", "Waterproof shell jacket", "Warm sweaters"],
        ["Thermal pants", "Waterproof trousers", "Warm jeans", "Leggings for layering"],
        ["Gore-Tex jacket", "Insulated parka", "Wool coat", "Rain jacket"],
        ["Waterproof hiking boots", "Warm wool socks", "Insulated boots", "Grip-sole shoes"],
        ["Wool hat", "Waterproof gloves", "Warm scarf", "Rain hat with brim"]),
      ["Waterproof backpack cover", "Quick-dry towel", "Travel umbrella", "Vitamin D supplements", "Warm thermos"])
  }

  function TropicalPattern(month: Month): (p: Pattern)
    ensures p.temperatures == Temperatures(Tropical)
  {
    Pattern(
      Temperatures(Tropical),
      "Warm tropical climate",
      ["Light clothing", "Sunscreen", "Hat", "Swimwear", "Sandals"],
      Clothing(
        ["Breathable cotton shirts", "Tank tops", "Linen blouses", "UV protection shirts"],
        ["Light shorts", "Flowing pants", "Beach wraps", "Swimwear"],
        ["Light cardigan for AC", "Beach cover-up"],
        ["Comfortable sandals", "Water shoes", "Breathable sneakers"],
        ["Wide-brim hat", "Beach bag", "Sunglasses", "Sarong"]),
      ["High SPF sunscreen", "After-sun care", "Insect repellent", "Cooling towel", "Electrolyte drinks"])
  }

  /** The table entry of a region, as built for a request in the given month (the `weatherPatterns` record). */
  function PatternOf(r: Region, month: Month): (p: Pattern)
    ensures p.temperatures == Temperatures(r)
  {
    match r
    case Caribbean => CaribbeanPattern(month)
    case Bahamas => BahamasPattern(month)
    case Mediterranean => MediterraneanPattern(month)
    case Alaska => AlaskaPattern(month)
    case Norway => NorwayPattern(month)
    case Tropical => TropicalPattern(month)
  }

  /** The month-to-season rule: 3..5 spring, 6..8 summer, 9..11 fall, anything else winter. */
  function SeasonOf(month: Month): (s: Season)
    ensures s == Spring <==> 3 <= month <= 5
    ensures s == Summer <==> 6 <= month <= 8
    ensures s == Fall <==> 9 <= month <= 11
    ensures s == Winter <==> month < 3
  {
    if month >= 3 && month <= 5 then Spring
    else if month >= 6 && month <= 8 then Summer
    else if month >= 9 && month <= 11 then Fall
    else Winter
  }

  /** The matching predicate of the search: the lower-cased destination contains the key,
      or the key contains the destination's first six lower-cased characters. */
  predicate Matches(destination: string, r: Region) {
    Contains(Lower(destination), Key(r)) || Contains(Key(r), Prefix(Lower(destination), 6))
  }

  /** `keys.find(...)`: the first entry whose key matches, if any. */
  function FindRegion(regions: seq<Region>, destination: string): (r: Option<Region>)
    ensures r.Some? ==> exists i :: 0 <= i < |regions| && regions[i] == r.value && Matches(destination, regions[i])
                          && forall j :: 0 <= j < i ==> !Matches(destination, regions[j])
    ensures r.None? ==> forall j :: 0 <= j < |regions| ==> !Matches(destination, regions[j])
  {
    if regions == [] then None
    else if Matches(destination, regions[0]) then Some(regions[0])
    else
      var r := FindRegion(regions[1..], destination);
      assert forall j :: 1 <= j < |regions| ==> regions[j] == regions[1..][j - 1];
      r
  }

  /** The entry a destination gets: the first match, or the fallback. */
  function Selected(destination: string): Region {
    FindRegion(Regions, destination).GetOr(Fallback)
  }

  /** The response object built from the chosen entry: the season's temperature, or the summer one when
      the entry lacks that season. */
  function Assemble(destination: string, date: string, season: Season, pattern: Pattern): (r: Forecast)
    requires Summer in pattern.temperatures
    ensures r.destination == destination && r.date == date && r.source == Source && r.season == season
    ensures season in pattern.temperatures ==> r.temperature == pattern.temperatures[season]
    ensures r.conditions == pattern.conditions && r.recommendations == pattern.recommendations
    ensures r.clothingSuggestions == pattern.clothingSuggestions && r.weatherEssentials == pattern.weatherEssentials
  {
    Forecast(
      destination,
      date,
      season,
      if season in pattern.temperatures then pattern.temperatures[season] else pattern.temperatures[Summer],
      pattern.conditions,
      pattern.recommendations,
      pattern.clothingSuggestions,
      pattern.weatherEssentials,
      Source)
  }

  /** `getHistoricalWeatherData(destination, date)` for a date that falls in `month`. */
  function Lookup(destination: string, date: string, month: Month): (r: Forecast)
    ensures r.destination == destination && r.date == date && r.source == Source
    ensures r.season == SeasonOf(month)
    ensures r.temperature == Temperatures(Selected(destination))[r.season]
    ensures r.conditions == PatternOf(Selected(destination), month).conditions
    ensures r.recommendations == PatternOf(Selected(destination), month).recommendations
    ensures r.clothingSuggestions == PatternOf(Selected(destination), month).clothingSuggestions
    ensures r.weatherEssentials == PatternOf(Selected(destination), month).weatherEssentials
  {
    Assemble(destination, date, SeasonOf(month), PatternOf(Selected(destination), month))
  }

  /** The search picks a table entry: the first whose key matches, or the fallback when none matches. */
  lemma SelectedIsFirstMatch(destination: string)
    ensures (exists i :: 0 <= i < |Regions| && Regions[i] == Selected(destination)
               && Matches(destination, Regions[i])
               && forall j :: 0 <= j < i ==> !Matches(destination, Regions[j]))
         || ((forall j :: 0 <= j < |Regions| ==> !Matches(destination, Regions[j]))
               && Selected(destination) == Fallback)
  {
  }

  /** Caribbean and Bahamas switch to their hurricane-season variants exactly in months 6..11. */
  lemma HurricaneSeason(month: Month)
    ensures PatternOf(Caribbean, month).conditions == "Hurricane season - pack rain gear" <==> HurricaneMonth(month)
    ensures PatternOf(Caribbean, month).clothingSuggestions.outerwear == ["Light rain jacket", "Windbreaker"]
            <==> HurricaneMonth(month)
    ensures PatternOf(Bahamas, month).conditions == "Hurricane season possible" <==> HurricaneMonth(month)
  {
  }

  /** Mediterranean: hot and dry in 6..8, cool in 11 and 0..2, mild otherwise; the summer lists exactly in 6..8. */
  lemma MediterraneanRules(month: Month)
    ensures PatternOf(Mediterranean, month).conditions ==
      if 6 <= month <= 8 then "Hot and dry"
      else if month == 11 || month <= 2 then "Cool and possibly rainy"
      else "Mild weather"
    ensures var p := PatternOf(Mediterranean, month);
      && (p.clothingSuggestions.tops == ["Linen shirts", "Cotton blouses", "Light tops"] <==> 6 <= month <= 8)
      && (p.clothingSuggestions.bottoms == ["Linen pants", "Light shorts", "Maxi dresses"] <==> 6 <= month <= 8)
      && (p.clothingSuggestions.outerwear == ["Light shawl", "Thin cardigan"] <==> 6 <= month <= 8)
      && (p.weatherEssentials == ["High SPF sunscreen", "Cooling towel", "Hand fan"] <==> 6 <= month <= 8)
  {
  }

  /** A destination that selects the Caribbean entry is told to pack rain gear exactly in months 6..11. */
  lemma CaribbeanForecastHurricane(destination: string, date: string, month: Month)
    requires Selected(destination) == Caribbean
    ensures Lookup(destination, date, month).conditions == "Hurricane season - pack rain gear" <==> HurricaneMonth(month)
    ensures Lookup(destination, date, month).clothingSuggestions.outerwear == ["Light rain jacket", "Windbreaker"]
            <==> HurricaneMonth(month)
  {
    HurricaneSeason(month);
  }

  /** "Caribbean Cruise" in July: the Caribbean pattern, summer, 88/79, hurricane guidance. */
  lemma CaribbeanInJuly()
    ensures var f := Lookup("Caribbean Cruise", "2024-07-15", 6);
      && f.season == Summer && f.temperature == Temperature(88, 79)
      && f.conditions == "Hurricane season - pack rain gear"
  {
    CaribbeanCruiseIsCaribbean();
  }

  lemma CaribbeanCruiseIsCaribbean()
    ensures Selected("Caribbean Cruise") == Caribbean
  {
    assert Lower("Caribbean Cruise") == "caribbean cruise";
    assert StartsWith("caribbean cruise", "caribbean");
  }

  /** A destination that matches no key falls back to the tropical pattern. */
  lemma AntarcticaIsTropical()
    ensures Selected("Antarctica") == Fallback
  {
    forall r: Region ensures !Matches("Antarctica", r) {
      AntarcticaMatchesNothing(r);
    }
  }

  lemma AntarcticaMatchesNothing(r: Region)
    ensures !Matches("Antarctica", r)
  {
    match r
    case Caribbean => AntarcticaMisses("caribbean", 'b', 't');
    case Bahamas => AntarcticaMisses("bahamas", 'b', 't');
    case Mediterranean => AntarcticaMisses("mediterranean", 'm', 'c');
    case Alaska => AntarcticaMisses("alaska", 'l', 't');
    case Norway => AntarcticaMisses("norway", 'o', 't');
    case Tropical => AntarcticaMisses("tropical", 'o', 'n');
  }

  /** A key with a letter "antarctica" lacks, and lacking a letter of the prefix "antarc", matches neither way. */
  lemma AntarcticaMisses(key: string, inKey: char, inPrefix: char)
    requires inKey in key && inKey !in "antarctica"
    requires inPrefix in "antarc" && inPrefix !in key
    ensures !Contains(Lower("Antarctica"), key) && !Contains(key, Prefix(Lower("Antarctica"), 6))
  {
    var d := "antarctica";
    assert Lower("Antarctica") == d;
    assert Prefix(d, 6) == "antarc";
    MissingCharNotContained(d, key, inKey);
    MissingCharNotContained(key, "antarc", inPrefix);
  }

  /** The second matching rule makes an empty destination match the first key, which is why the
      endpoint refuses empty destinations before looking anything up. */
  lemma EmptyDestinationIsCaribbean()
    ensures Selected("") == Caribbean
  {
    assert Lower("") == "";
    assert StartsWith(Key(Caribbean), Prefix(Lower(""), 6));
  }
}
