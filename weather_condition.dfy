/**
  The weather-code translator: a WMO weather interpretation code (code table
  4677, "ww, present weather", in the subset Open-Meteo reports) is turned
  into a human-readable description, or "Unknown" for any other code.
 */
module WeatherCondition {
  import opened JsObject

  /** The object literal of the translator, definition by definition, in source order. */
  const CodeTable: seq<Property<string>> := [
    Property(0, "Clear sky"),
    Property(1, "Mainly clear"),
    Property(2, "Partly cloudy"),
    Property(3, "Overcast"),
    Property(45, "Fog"),
    Property(48, "Depositing rime fog"),
    Property(51, "Drizzle: Light"),
    Property(53, "Drizzle: Moderate"),
    Property(55, "Drizzle: Dense intensity"),
    Property(56, "Freezing Drizzle: Light"),
    Property(57, "Freezing Drizzle: Dense intensity"),
    Property(61, "Rain: Slight"),
    Property(63, "Rain: Moderate"),
    Property(65, "Rain: Heavy intensity"),
    Property(66, "Freezing Rain: Light"),
    Property(67, "Freezing Rain: Heavy intensity"),
    Property(71, "Snow fall: Slight"),
    Property(73, "Snow fall: Moderate"),
    Property(75, "Snow fall: Heavy intensity"),
    Property(77, "Snow grains"),
    Property(80, "Rain showers: Slight"),
    Property(81, "Rain showers: Moderate"),
    Property(82, "Rain showers: Violent"),
    Property(85, "Snow showers slight"),
    Property(86, "Snow showers heavy"),
    Property(95, "Thunderstorm: Slight or moderate"),
    Property(96, "Thunderstorm with slight hail"),
    Property(99, "Thunderstorm with heavy hail")
  ]

  /** The description returned for every code the table does not list. */
  const UnknownDescription := "Unknown"

  /** The codes the table lists. */
  const RecognisedCodes: set<int> :=
    {0, 1, 2, 3, 45, 48, 51, 53, 55, 56, 57, 61, 63, 65, 66, 67,
     71, 73, 75, 77, 80, 81, 82, 85, 86, 95, 96, 99}

  /** The `codes` object the literal evaluates to. */
  function Codes(): map<int, string> {
    ObjectOf(CodeTable)
  }

  /** No description in the table is falsy (empty) or equal to the fallback. */
  lemma TableDescriptionsWellFormed()
    ensures forall i :: 0 <= i < |CodeTable| ==>
              CodeTable[i].value != "" && CodeTable[i].value != UnknownDescription
  {
  }

  /** The codes are listed in increasing order, so none is listed twice. */
  lemma TableKeysDistinct()
    ensures KeysIncreasing(CodeTable)
    ensures KeysDistinct(CodeTable)
  {
    IncreasingKeysDistinct(CodeTable);
  }

  /** No description is listed twice. */
  lemma TableValuesDistinct()
    ensures ValuesDistinct(CodeTable)
  {
    assert forall i, j :: 0 <= i < j < |CodeTable| ==> CodeTable[i].value != CodeTable[j].value;
  }

  /**
    The `codes` object holds exactly the listed codes, each with its listed
    description, and none of those descriptions is falsy or "Unknown".
   */
  lemma CodesMatchTable(code: int)
    ensures code in Codes() <==> Defines(CodeTable, code)
    ensures forall i :: 0 <= i < |CodeTable| && CodeTable[i].key == code ==>
              Codes()[code] == CodeTable[i].value
    ensures code in Codes() ==> Codes()[code] != "" && Codes()[code] != UnknownDescription
  {
    TableDescriptionsWellFormed();
    TableKeysDistinct();
    forall i | 0 <= i < |CodeTable| && CodeTable[i].key == code
      ensures code in Codes() && Codes()[code] == CodeTable[i].value
    {
      DistinctKeysAllLast(CodeTable, i);
      ObjectOfLastDefinitionWins(CodeTable, i);
    }
    if code in Codes() {
      ObjectOfFromDefinition(CodeTable, code);
    }
  }

  /**
    `codes[code] || "Unknown"`. Total on integers; the result is the table's
    description for a listed code and "Unknown" exactly for the others.
   */
  function GetWeatherCondition(code: int): (description: string)
    ensures description != ""
    ensures forall i :: 0 <= i < |CodeTable| && CodeTable[i].key == code ==>
              description == CodeTable[i].value
    ensures description == UnknownDescription <==> !Defines(CodeTable, code)
  {
    CodesMatchTable(code);
    Or(Get(Codes(), code), UnknownDescription)
  }

  /**
    The `||` in `codes[code] || "Unknown"` falls back only for a missing key:
    no description in the table is falsy, so the translator is the plain
    lookup "the table's entry if present, otherwise Unknown".
   */
  lemma FallbackOnlyForMissingKey(code: int)
    ensures GetWeatherCondition(code) == if code in Codes() then Codes()[code] else UnknownDescription
  {
    forall k | k in Codes()
      ensures Codes()[k] != ""
    {
      CodesMatchTable(k);
    }
    OrFallsBackOnlyWhenAbsent(Codes(), code, UnknownDescription);
  }

  /** Codes 0-3: sky clearing to overcast. */
  lemma ListedSkyCondition()
    ensures GetWeatherCondition(0) == "Clear sky"
    ensures GetWeatherCondition(1) == "Mainly clear"
    ensures GetWeatherCondition(2) == "Partly cloudy"
    ensures GetWeatherCondition(3) == "Overcast"
  {
    assert CodeTable[0] == Property(0, "Clear sky");
    assert CodeTable[1] == Property(1, "Mainly clear");
    assert CodeTable[2] == Property(2, "Partly cloudy");
    assert CodeTable[3] == Property(3, "Overcast");
  }

  /** Codes 45 and 48: fog. */
  lemma ListedFog()
    ensures GetWeatherCondition(45) == "Fog"
    ensures GetWeatherCondition(48) == "Depositing rime fog"
  {
    assert CodeTable[4] == Property(45, "Fog");
    assert CodeTable[5] == Property(48, "Depositing rime fog");
  }

  /** Codes 51-57: drizzle and freezing drizzle. */
  lemma ListedDrizzle()
    ensures GetWeatherCondition(51) == "Drizzle: Light"
    ensures GetWeatherCondition(53) == "Drizzle: Moderate"
    ensures GetWeatherCondition(55) == "Drizzle: Dense intensity"
    ensures GetWeatherCondition(56) == "Freezing Drizzle: Light"
    ensures GetWeatherCondition(57) == "Freezing Drizzle: Dense intensity"
  {
    assert CodeTable[6] == Property(51, "Drizzle: Light");
    assert CodeTable[7] == Property(53, "Drizzle: Moderate");
    assert CodeTable[8] == Property(55, "Drizzle: Dense intensity");
    assert CodeTable[9] == Property(56, "Freezing Drizzle: Light");
    assert CodeTable[10] == Property(57, "Freezing Drizzle: Dense intensity");
  }

  /** Codes 61-67: rain and freezing rain. */
  lemma ListedRain()
    ensures GetWeatherCondition(61) == "Rain: Slight"
    ensures GetWeatherCondition(63) == "Rain: Moderate"
    ensures GetWeatherCondition(65) == "Rain: Heavy intensity"
    ensures GetWeatherCondition(66) == "Freezing Rain: Light"
    ensures GetWeatherCondition(67) == "Freezing Rain: Heavy intensity"
  {
    assert CodeTable[11] == Property(61, "Rain: Slight");
    assert CodeTable[12] == Property(63, "Rain: Moderate");
    assert CodeTable[13] == Property(65, "Rain: Heavy intensity");
    assert CodeTable[14] == Property(66, "Freezing Rain: Light");
    assert CodeTable[15] == Property(67, "Freezing Rain: Heavy intensity");
  }

  /** Codes 71-77: snow fall and snow grains. */
  lemma ListedSnow()
    ensures GetWeatherCondition(71) == "Snow fall: Slight"
    ensures GetWeatherCondition(73) == "Snow fall: Moderate"
    ensures GetWeatherCondition(75) == "Snow fall: Heavy intensity"
    ensures GetWeatherCondition(77) == "Snow grains"
  {
    assert CodeTable[16] == Property(71, "Snow fall: Slight");
    assert CodeTable[17] == Property(73, "Snow fall: Moderate");
    assert CodeTable[18] == Property(75, "Snow fall: Heavy intensity");
    assert CodeTable[19] == Property(77, "Snow grains");
  }

  /** Codes 80-86: rain and snow showers. */
  lemma ListedShowers()
    ensures GetWeatherCondition(80) == "Rain showers: Slight"
    ensures GetWeatherCondition(81) == "Rain showers: Moderate"
    ensures GetWeatherCondition(82) == "Rain showers: Violent"
    ensures GetWeatherCondition(85) == "Snow showers slight"
    ensures GetWeatherCondition(86) == "Snow showers heavy"
  {
    assert CodeTable[20] == Property(80, "Rain showers: Slight");
    assert CodeTable[21] == Property(81, "Rain showers: Moderate");
    assert CodeTable[22] == Property(82, "Rain showers: Violent");
    assert CodeTable[23] == Property(85, "Snow showers slight");
    assert CodeTable[24] == Property(86, "Snow showers heavy");
  }

  /** Codes 95-99: thunderstorms. */
  lemma ListedThunderstorm()
    ensures GetWeatherCondition(95) == "Thunderstorm: Slight or moderate"
    ensures GetWeatherCondition(96) == "Thunderstorm with slight hail"
    ensures GetWeatherCondition(99) == "Thunderstorm with heavy hail"
  {
    assert CodeTable[25] == Property(95, "Thunderstorm: Slight or moderate");
    assert CodeTable[26] == Property(96, "Thunderstorm with slight hail");
    assert CodeTable[27] == Property(99, "Thunderstorm with heavy hail");
  }

  /** The literal defines exactly the codes of `RecognisedCodes`. */
  lemma DefinedCodes(code: int)
    ensures Defines(CodeTable, code) <==> code in RecognisedCodes
  {
    var keys := seq(|CodeTable|, i requires 0 <= i < |CodeTable| => CodeTable[i].key);
    assert keys == [0, 1, 2, 3, 45, 48, 51, 53, 55, 56, 57, 61, 63, 65, 66, 67,
                    71, 73, 75, 77, 80, 81, 82, 85, 86, 95, 96, 99];
    if code in RecognisedCodes {
      assert code in keys;
      var i :| 0 <= i < |keys| && keys[i] == code;
      assert CodeTable[i].key == code;
    }
  }

  /** The `codes` object has exactly the keys of `RecognisedCodes`. */
  lemma CodesKeys()
    ensures Codes().Keys == RecognisedCodes
  {
    forall code | code in Codes() || code in RecognisedCodes
      ensures code in Codes() <==> code in RecognisedCodes
    {
      CodesMatchTable(code);
      DefinedCodes(code);
    }
  }

  /** A code is translated to "Unknown" exactly when it is not a recognised code. */
  lemma UnknownExactlyWhenUnrecognised(code: int)
    ensures GetWeatherCondition(code) == UnknownDescription <==> code !in RecognisedCodes
  {
    DefinedCodes(code);
  }

  /** Some codes the table does not list: gaps inside 0..99, 100 and a negative code. */
  lemma UnlistedExamples()
    ensures forall code :: code in [4, 7, 50, 100, -1] ==> GetWeatherCondition(code) == UnknownDescription
  {
    forall code | code in [4, 7, 50, 100, -1]
      ensures GetWeatherCondition(code) == UnknownDescription
    {
      assert code !in RecognisedCodes;
      UnknownExactlyWhenUnrecognised(code);
    }
  }

  /** Every recognised code lies in 0..99, so any code outside that range is "Unknown". */
  lemma OutOfRangeUnknown(code: int)
    requires code < 0 || 99 < code
    ensures GetWeatherCondition(code) == UnknownDescription
  {
    assert code !in RecognisedCodes;
    UnknownExactlyWhenUnrecognised(code);
  }

  /** Two different codes share a description only when both are "Unknown". */
  lemma DescriptionsDistinguishCodes(a: int, b: int)
    requires a != b
    ensures GetWeatherCondition(a) == GetWeatherCondition(b) ==>
              GetWeatherCondition(a) == UnknownDescription && a !in RecognisedCodes && b !in RecognisedCodes
  {
    DefinedCodes(a);
    DefinedCodes(b);
    CodesMatchTable(a);
    CodesMatchTable(b);
    FallbackOnlyForMissingKey(a);
    FallbackOnlyForMissingKey(b);
    TableValuesDistinct();
    DistinctValuesInjective(CodeTable);
  }
}
