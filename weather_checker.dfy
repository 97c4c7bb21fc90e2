/** `weather_checker.py`: turn a country name into its two-letter code,
    ask the wttr.in service for the current weather of a city, and lay out
    the reply. The service is a parameter: a function from the request
    path to the reply it would give. */
module WeatherChecker {
  import opened Wrappers
  import opened Text

  // ---------------------------------------------------------------------
  // ISO_COUNTRY_CODES, written out in runs of ten names
  // ---------------------------------------------------------------------

  const Run0: map<string, string> := map[
    "afghanistan" := "AF", "albania" := "AL", "algeria" := "DZ", "andorra" := "AD",
    "angola" := "AO", "argentina" := "AR", "armenia" := "AM", "australia" := "AU",
    "austria" := "AT", "azerbaijan" := "AZ"
  ]

  const Run1: map<string, string> := map[
    "bahamas" := "BS", "bahrain" := "BH", "bangladesh" := "BD", "barbados" := "BB",
    "belarus" := "BY", "belgium" := "BE", "belize" := "BZ", "benin" := "BJ",
    "bhutan" := "BT", "bolivia" := "BO"
  ]

  const Run2: map<string, string> := map[
    "bosnia and herzegovina" := "BA", "botswana" := "BW", "brazil" := "BR", "brunei" := "BN",
    "bulgaria" := "BG", "burkina faso" := "BF", "burundi" := "BI", "cambodia" := "KH",
    "cameroon" := "CM", "canada" := "CA"
  ]

  const Run3: map<string, string> := map[
    "cape verde" := "CV", "chile" := "CL", "china" := "CN", "colombia" := "CO",
    "comoros" := "KM", "congo" := "CG", "croatia" := "HR", "cuba" := "CU",
    "cyprus" := "CY", "czech republic" := "CZ"
  ]

  const Run4: map<string, string> := map[
    "denmark" := "DK", "djibouti" := "DJ", "dominica" := "DM", "dominican republic" := "DO",
    "ecuador" := "EC", "egypt" := "EG", "el salvador" := "SV", "equatorial guinea" := "GQ",
    "eritrea" := "ER", "estonia" := "EE"
  ]

  const Run5: map<string, string> := map[
    "eswatini" := "SZ", "ethiopia" := "ET", "fiji" := "FJ", "finland" := "FI",
    "france" := "FR", "gabon" := "GA", "gambia" := "GM", "georgia" := "GE",
    "germany" := "DE", "ghana" := "GH"
  ]

  const Run6: map<string, string> := map[
    "greece" := "GR", "guatemala" := "GT", "guinea" := "GN", "guyana" := "GY",
    "haiti" := "HT", "honduras" := "HN", "hungary" := "HU", "iceland" := "IS",
    "india" := "IN", "indonesia" := "ID"
  ]

  const Run7: map<string, string> := map[
    "iran" := "IR", "iraq" := "IQ", "ireland" := "IE", "israel" := "IL",
    "italy" := "IT", "jamaica" := "JM", "japan" := "JP", "jordan" := "JO",
    "kazakhstan" := "KZ", "kenya" := "KE"
  ]

  const Run8: map<string, string> := map[
    "kiribati" := "KI", "kuwait" := "KW", "kyrgyzstan" := "KG", "laos" := "LA",
    "latvia" := "LV", "lebanon" := "LB", "lesotho" := "LS", "liberia" := "LR",
    "libya" := "LY", "lithuania" := "LT"
  ]

  const Run9: map<string, string> := map[
    "luxembourg" := "LU", "madagascar" := "MG", "malawi" := "MW", "malaysia" := "MY",
    "maldives" := "MV", "mali" := "ML", "malta" := "MT", "mauritania" := "MR",
    "mauritius" := "MU", "mexico" := "MX"
  ]

  const Run10: map<string, string> := map[
    "moldova" := "MD", "monaco" := "MC", "mongolia" := "MN", "montenegro" := "ME",
    "morocco" := "MA", "mozambique" := "MZ", "myanmar" := "MM", "namibia" := "NA",
    "nepal" := "NP", "netherlands" := "NL"
  ]

  const Run11: map<string, string> := map[
    "new zealand" := "NZ", "nicaragua" := "NI", "niger" := "NE", "nigeria" := "NG",
    "north korea" := "KP", "norway" := "NO", "oman" := "OM", "pakistan" := "PK",
    "panama" := "PA", "paraguay" := "PY"
  ]

  const Run12: map<string, string> := map[
    "peru" := "PE", "philippines" := "PH", "poland" := "PL", "portugal" := "PT",
    "qatar" := "QA", "romania" := "RO", "russia" := "RU", "rwanda" := "RW",
    "saudi arabia" := "SA", "senegal" := "SN"
  ]

  const Run13: map<string, string> := map[
    "serbia" := "RS", "singapore" := "SG", "slovakia" := "SK", "slovenia" := "SI",
    "somalia" := "SO", "south africa" := "ZA", "south korea" := "KR", "spain" := "ES",
    "sri lanka" := "LK", "sudan" := "SD"
  ]

  const Run14: map<string, string> := map[
    "sweden" := "SE", "switzerland" := "CH", "syria" := "SY", "taiwan" := "TW",
    "tajikistan" := "TJ", "tanzania" := "TZ", "thailand" := "TH", "togo" := "TG",
    "tonga" := "TO", "tunisia" := "TN"
  ]

  const Run15: map<string, string> := map[
    "turkey" := "TR", "uganda" := "UG", "ukraine" := "UA", "united arab emirates" := "AE",
    "united kingdom" := "UK", "united states" := "US", "uruguay" := "UY", "uzbekistan" := "UZ",
    "venezuela" := "VE", "vietnam" := "VN"
  ]

  const Run16: map<string, string> := map[
    "yemen" := "YE", "zambia" := "ZM", "zimbabwe" := "ZW"
  ]

  const Part0: map<string, string> := Run0 + Run1 + Run2 + Run3
  const Part1: map<string, string> := Run4 + Run5 + Run6 + Run7
  const Part2: map<string, string> := Run8 + Run9 + Run10 + Run11
  const Part3: map<string, string> := Run12 + Run13 + Run14 + Run15 + Run16

  /** `ISO_COUNTRY_CODES`: lower-case country names to their codes. */
  const CountryCodes: map<string, string> := Part0 + Part1 + Part2 + Part3

  /** A table entry as `get_country_code` relies on: the name is in lower
      case (letters and spaces) and at least four characters long, the code
      is two upper-case letters. */
  predicate WellFormedEntry(name: string, code: string) {
    && |name| >= 4
    && (forall i :: 0 <= i < |name| ==> IsLowerLetter(name[i]) || name[i] == ' ')
    && IsCode(code)
  }

  /** Two upper-case letters. */
  predicate IsCode(code: string) {
    |code| == 2 && IsUpperLetter(code[0]) && IsUpperLetter(code[1])
  }

  // The entries are checked run by run and then part by part: one lemma
  // over the whole 163-entry literal is more than the solver can take in
  // one go, while ten entries at a time are cheap. RunNEntries and
  // PartNEntries state the same fact for each piece of the table.

  lemma Run0Entries(name: string)
    requires name in Run0
    ensures WellFormedEntry(name, Run0[name]) && Run0[name] != "GB"
  {
  }

  lemma Run1Entries(name: string)
    requires name in Run1
    ensures WellFormedEntry(name, Run1[name]) && Run1[name] != "GB"
  {
  }

  lemma Run2Entries(name: string)
    requires name in Run2
    ensures WellFormedEntry(name, Run2[name]) && Run2[name] != "GB"
  {
  }

  lemma Run3Entries(name: string)
    requires name in Run3
    ensures WellFormedEntry(name, Run3[name]) && Run3[name] != "GB"
  {
  }

  lemma Run4Entries(name: string)
    requires name in Run4
    ensures WellFormedEntry(name, Run4[name]) && Run4[name] != "GB"
  {
  }

  lemma Run5Entries(name: string)
    requires name in Run5
    ensures WellFormedEntry(name, Run5[name]) && Run5[name] != "GB"
  {
  }

  lemma Run6Entries(name: string)
    requires name in Run6
    ensures WellFormedEntry(name, Run6[name]) && Run6[name] != "GB"
  {
  }

  lemma Run7Entries(name: string)
    requires name in Run7
    ensures WellFormedEntry(name, Run7[name]) && Run7[name] != "GB"
  {
  }

  lemma Run8Entries(name: string)
    requires name in Run8
    ensures WellFormedEntry(name, Run8[name]) && Run8[name] != "GB"
  {
  }

  lemma Run9Entries(name: string)
    requires name in Run9
    ensures WellFormedEntry(name, Run9[name]) && Run9[name] != "GB"
  {
  }

  lemma Run10Entries(name: string)
    requires name in Run10
    ensures WellFormedEntry(name, Run10[name]) && Run10[name] != "GB"
  {
  }

  lemma Run11Entries(name: string)
    requires name in Run11
    ensures WellFormedEntry(name, Run11[name]) && Run11[name] != "GB"
  {
  }

  lemma Run12Entries(name: string)
    requires name in Run12
    ensures WellFormedEntry(name, Run12[name]) && Run12[name] != "GB"
  {
  }

  lemma Run13Entries(name: string)
    requires name in Run13
    ensures WellFormedEntry(name, Run13[name]) && Run13[name] != "GB"
  {
  }

  lemma Run14Entries(name: string)
    requires name in Run14
    ensures WellFormedEntry(name, Run14[name]) && Run14[name] != "GB"
  {
  }

  lemma Run15Entries(name: string)
    requires name in Run15
    ensures WellFormedEntry(name, Run15[name]) && Run15[name] != "GB"
  {
  }

  lemma Run16Entries(name: string)
    requires name in Run16
    ensures WellFormedEntry(name, Run16[name]) && Run16[name] != "GB"
  {
  }

  lemma Part0Entries(name: string)
    requires name in Part0
    ensures WellFormedEntry(name, Part0[name]) && Part0[name] != "GB"
  {
    if name in Run3 {
      Run3Entries(name);
    } else if name in Run2 {
      Run2Entries(name);
    } else if name in Run1 {
      Run1Entries(name);
    } else {
      Run0Entries(name);
    }
  }

  lemma Part1Entries(name: string)
    requires name in Part1
    ensures WellFormedEntry(name, Part1[name]) && Part1[name] != "GB"
  {
    if name in Run7 {
      Run7Entries(name);
    } else if name in Run6 {
      Run6Entries(name);
    } else if name in Run5 {
      Run5Entries(name);
    } else {
      Run4Entries(name);
    }
  }

  lemma Part2Entries(name: string)
    requires name in Part2
    ensures WellFormedEntry(name, Part2[name]) && Part2[name] != "GB"
  {
    if name in Run11 {
      Run11Entries(name);
    } else if name in Run10 {
      Run10Entries(name);
    } else if name in Run9 {
      Run9Entries(name);
    } else {
      Run8Entries(name);
    }
  }

  lemma Part3Entries(name: string)
    requires name in Part3
    ensures WellFormedEntry(name, Part3[name]) && Part3[name] != "GB"
  {
    if name in Run16 {
      Run16Entries(name);
    } else if name in Run15 {
      Run15Entries(name);
    } else if name in Run14 {
      Run14Entries(name);
    } else if name in Run13 {
      Run13Entries(name);
    } else {
      Run12Entries(name);
    }
  }

  /** Where a key of a union of four maps takes its value from: the last
      map holding it. */
  lemma UnionLookup<K, V>(a: map<K, V>, b: map<K, V>, c: map<K, V>, d: map<K, V>, k: K)
    requires k in a + b + c + d
    ensures k in d ==> (a + b + c + d)[k] == d[k]
    ensures k !in d && k in c ==> (a + b + c + d)[k] == c[k]
    ensures k !in d && k !in c && k in b ==> (a + b + c + d)[k] == b[k]
    ensures k !in d && k !in c && k !in b ==> k in a && (a + b + c + d)[k] == a[k]
  {
  }

  /** Every entry of the table is well formed, and no country is given
      "GB", the code ISO 3166-1 assigns to the United Kingdom. */
  lemma TableEntry(name: string)
    requires name in CountryCodes
    ensures WellFormedEntry(name, CountryCodes[name]) && CountryCodes[name] != "GB"
  {
    UnionLookup(Part0, Part1, Part2, Part3, name);
    if name in Part3 {
      Part3Entries(name);
    } else if name in Part2 {
      Part2Entries(name);
    } else if name in Part1 {
      Part1Entries(name);
    } else {
      Part0Entries(name);
    }
  }

  /** `get_country_code`: look the lower-cased name up in the table. */
  function GetCountryCode(country: string): (r: Option<string>)
    ensures r.Some? <==> Lower(country) in CountryCodes
  {
    var key := Lower(country);
    if key in CountryCodes then Some(CountryCodes[key]) else None
  }

  /** Lower-case letters and spaces are left alone by `str.lower`. */
  lemma FoldedIsLower(s: string)
    requires forall i :: 0 <= i < |s| ==> IsLowerLetter(s[i]) || s[i] == ' '
    ensures Lower(s) == s
  {
  }

  /** Every country of the table is found under its name in any mix of
      cases. */
  lemma FoundInAnyCase(country: string, name: string)
    requires name in CountryCodes && Lower(country) == Lower(name)
    ensures GetCountryCode(country) == Some(CountryCodes[name])
    ensures |country| >= 4
  {
    TableEntry(name);
    FoundUnderName(CountryCodes, country, name);
  }

  /** In any table with a lower-case key `name`, a text that lowers to the
      same as `name` finds `name`'s entry. */
  lemma FoundUnderName(table: map<string, string>, country: string, name: string)
    requires name in table && WellFormedEntry(name, table[name]) && Lower(country) == Lower(name)
    ensures Lower(country) in table && table[Lower(country)] == table[name]
    ensures |country| >= 4
  {
    FoldedIsLower(name);
  }

  /** Whatever is typed, a result is two upper-case letters, and never
      "GB"; and only a text of four characters or more is recognised. */
  lemma CodeShape(country: string, code: string)
    requires GetCountryCode(country) == Some(code)
    ensures IsCode(code) && code != "GB"
    ensures |country| >= 4
  {
    TableEntry(Lower(country));
  }

  /** Every name in the table is at least four characters long, so a
      typed code such as "US" or "GB" is never recognised. */
  lemma ShortInputHasNoCode(country: string)
    requires |country| < 4
    ensures GetCountryCode(country) == None
  {
    var key := Lower(country);
    if key in CountryCodes {
      TableEntry(key);
    }
  }

  lemma UnitedKingdomEntry(key: string)
    requires key == "united kingdom"
    ensures key in Run15 && Run15[key] == "UK" && key !in Run16
  {
  }

  /** The United Kingdom is looked up as "UK", whatever its case. */
  lemma UnitedKingdomIsUK(country: string)
    requires Lower(country) == "united kingdom"
    ensures GetCountryCode(country) == Some("UK")
  {
    var key := "united kingdom";
    UnitedKingdomEntry(key);
    assert key in Part3 && Part3[key] == "UK";
  }

  // ---------------------------------------------------------------------
  // get_weather
  // ---------------------------------------------------------------------

  /** Python truthiness of the optional code. */
  predicate Given(code: Option<string>) {
    code.Some? && code.value != []
  }

  /** The query: "city,code" when a code is given, otherwise the city. */
  function Query(city: string, code: Option<string>): (r: string)
    ensures |r| >= |city| && r[..|city|] == city
    ensures |r| > |city| <==> Given(code)
    ensures Given(code) ==> r[|city|] == ',' && r[|city| + 1..] == code.value
  {
    if Given(code) then city + "," + code.value else city
  }

  /** The path of the GET request sent to wttr.in. */
  function RequestPath(city: string, code: Option<string>): (r: string)
    ensures Sendable(r) <==> Sendable(Query(city, code))
  {
    var q := Query(city, code);
    var r := "/" + q + "?format=j1";
    assert forall i :: 0 <= i < |q| ==> r[1 + i] == q[i];
    assert forall i :: 0 <= i < |r| && (i == 0 || i > |q|) ==> !Unsendable(r[i]);
    r
  }

  lemma RequestWithCode(city: string, code: string)
    requires code != []
    ensures RequestPath(city, Some(code)) == "/" + city + "," + code + "?format=j1"
  {
  }

  /** The city and the code can be split back out of the query at its
      commas, provided neither holds one. */
  lemma {:induction false} QuerySplitsBack(city: string, code: Option<string>)
    requires ',' !in city && (code.Some? ==> ',' !in code.value)
    ensures Split(Query(city, code), ",") == [city] + (if Given(code) then [code.value] else [])
  {
    if Given(code) {
      SplitAtFirst(city, ',', code.value);
      SplitWithoutSeparator(code.value, ',');
      assert city + "," + code.value == city + [','] + code.value;
    } else {
      SplitWithoutSeparator(city, ',');
    }
  }

  /** One current-conditions record of the JSON reply, each field as the
      text the service sent. */
  datatype Condition = Condition(
    temperature: string, feelsLike: string, description: string,
    humidity: string, windSpeed: string, windDirection: string,
    precipitation: string, pressure: string, cloudCover: string,
    visibility: string, uvIndex: string)

  /** A decoded reply: an empty JSON object, or one with current conditions. */
  datatype Document = EmptyObject | Conditions(current: Condition)

  /** What the service does with a request: the connection fails, or it
      answers with a status and a body that may or may not decode. */
  datatype Reply = Unreachable | Answered(status: int, body: Option<Document>)

  /** A character `http.client` will not put in a request line: a control
      character, space or DEL raises `InvalidURL`, and anything outside
      ASCII fails to encode. */
  predicate Unsendable(c: char) {
    c <= ' ' || c >= '\U{7f}'
  }

  /** A path `conn.request` sends rather than raising. */
  predicate Sendable(path: string) {
    forall i :: 0 <= i < |path| ==> !Unsendable(path[i])
  }

  /** `get_weather`: the decoded reply when the request can be sent and the
      service answers 200 with a decodable body, otherwise nothing (every
      exception is caught). */
  function GetWeather(city: string, code: Option<string>, service: string -> Reply): (r: Option<Document>)
    ensures var reply := service(RequestPath(city, code));
            r.Some? <==> Sendable(RequestPath(city, code)) && reply.Answered? && reply.status == 200 && reply.body.Some?
    ensures r.Some? ==> r == service(RequestPath(city, code)).body
  {
    var path := RequestPath(city, code);
    if !Sendable(path) then None
    else
      match service(path)
      case Unreachable => None
      case Answered(status, body) => if status != 200 then None else body
  }

  /** A city with a space in it ("New York") is never sent, whatever the
      country: the request raises before reaching the service. */
  lemma SpacedCityIsNeverSent(city: string, code: Option<string>, service: string -> Reply, i: nat)
    requires i < |city| && city[i] == ' '
    ensures GetWeather(city, code, service) == None
  {
    assert RequestPath(city, code)[1 + i] == ' ';
  }

  // ---------------------------------------------------------------------
  // display_weather
  // ---------------------------------------------------------------------

  /** The location shown: "City, COUNTRY", or "City" when no country was typed. */
  function Location(city: string, country: string): (r: string)
    ensures |r| >= |city| && r[..|city|] == Capitalize(city)
    ensures country != [] <==> |r| > |city|
    ensures country != [] ==> r[|city|..] == ", " + Upper(country)
  {
    if country != [] then Capitalize(city) + ", " + Upper(country) else Capitalize(city)
  }

  /** The location is already in display form: showing it again changes nothing. */
  lemma LocationIsNormalised(city: string, country: string)
    ensures Location(Capitalize(city), Upper(country)) == Location(city, country)
  {
    CapitalizeIdempotent(city);
    UpperIdempotent(country);
  }

  /** The printed report, one element per line (the heading is preceded by
      an empty line). */
  /** The labels of the ten lines after the heading, in print order. */
  const FieldLabels: seq<string> := [
    "Temperature: ", "Feels Like: ", "Condition: ", "Humidity: ", "Wind: ",
    "Precipitation: ", "Pressure: ", "Cloud Cover: ", "Visibility: ", "UV Index: "
  ]

  function Report(weather: Option<Document>, city: string, country: string): (lines: seq<string>)
    ensures |lines| == 12 <==> weather.Some? && weather.value.Conditions?
    ensures |lines| != 12 ==> lines == ["No weather information available."]
    ensures |lines| == 12 ==> lines[0] == "" && lines[1] == "Weather in " + Location(city, country) + ":"
    ensures |lines| == 12 ==> forall k :: 2 <= k < 12 ==> StartsWith(lines[k], FieldLabels[k - 2])
  {
    if weather.None? || weather.value.EmptyObject? then
      ["No weather information available."]
    else
      var c := weather.value.current;
      var shown := [
        c.temperature + "°C", c.feelsLike + "°C", c.description, c.humidity + "%",
        c.windSpeed + " km/h " + c.windDirection, c.precipitation + " mm",
        c.pressure + " hPa", c.cloudCover + "%", c.visibility + " km", c.uvIndex ];
      ["", "Weather in " + Location(city, country) + ":"]
        + seq(10, k requires 0 <= k < 10 => FieldLabels[k] + shown[k])
  }

  /** The text of a report line between its label and its unit. */
  function Shown(line: string, tag: string, unit: string): string
    requires |tag| + |unit| <= |line|
  {
    line[|tag|..|line| - |unit|]
  }

  /** Every field of the current conditions can be read back from its
      line of the report, between the line's label and its unit. */
  lemma ReportShowsConditions(c: Condition, city: string, country: string)
    ensures var lines := Report(Some(Conditions(c)), city, country);
            && |lines| == 12
            && Shown(lines[2], FieldLabels[0], "°C") == c.temperature
            && Shown(lines[3], FieldLabels[1], "°C") == c.feelsLike
            && Shown(lines[4], FieldLabels[2], "") == c.description
            && Shown(lines[5], FieldLabels[3], "%") == c.humidity
            && Shown(lines[6], FieldLabels[4], "") == c.windSpeed + " km/h " + c.windDirection
            && Shown(lines[7], FieldLabels[5], " mm") == c.precipitation
            && Shown(lines[8], FieldLabels[6], " hPa") == c.pressure
            && Shown(lines[9], FieldLabels[7], "%") == c.cloudCover
            && Shown(lines[10], FieldLabels[8], " km") == c.visibility
            && Shown(lines[11], FieldLabels[9], "") == c.uvIndex
  {
    var wind := c.windSpeed + " km/h " + c.windDirection;
    assert c.description + "" == c.description;
    assert wind + "" == wind;
    assert c.uvIndex + "" == c.uvIndex;
    ShownReadsBack(FieldLabels[0], c.temperature, "°C");
    ShownReadsBack(FieldLabels[1], c.feelsLike, "°C");
    ShownReadsBack(FieldLabels[2], c.description, "");
    ShownReadsBack(FieldLabels[3], c.humidity, "%");
    ShownReadsBack(FieldLabels[4], wind, "");
    ShownReadsBack(FieldLabels[5], c.precipitation, " mm");
    ShownReadsBack(FieldLabels[6], c.pressure, " hPa");
    ShownReadsBack(FieldLabels[7], c.cloudCover, "%");
    ShownReadsBack(FieldLabels[8], c.visibility, " km");
    ShownReadsBack(FieldLabels[9], c.uvIndex, "");
  }

  /** A line built from a tag, a value and a unit shows that value. */
  lemma ShownReadsBack(tag: string, value: string, unit: string)
    ensures |tag| + |unit| <= |tag + (value + unit)|
    ensures Shown(tag + (value + unit), tag, unit) == value
  {
    var line := tag + (value + unit);
    assert line[|tag|..|line| - |unit|] == value;
  }

  // ---------------------------------------------------------------------
  // main
  // ---------------------------------------------------------------------

  /** The code sent for the typed country: looked up only when one was typed. */
  function CodeFor(countryAnswer: string): (r: Option<string>)
    ensures r.Some? <==> Strip(countryAnswer) != [] && Lower(Strip(countryAnswer)) in CountryCodes
    ensures r.Some? ==> r == GetCountryCode(Strip(countryAnswer))
  {
    var country := Strip(countryAnswer);
    if country != [] then GetCountryCode(country) else None
  }

  /** The request `main` sends for the two answers. */
  function MainRequest(cityAnswer: string, countryAnswer: string): string {
    RequestPath(Strip(cityAnswer), CodeFor(countryAnswer))
  }

  /** `main`: the lines `display_weather` prints. The error line that
      `get_weather` prints first when the request fails is not part of
      the result. */
  function CheckWeather(cityAnswer: string, countryAnswer: string, service: string -> Reply): (r: seq<string>)
    ensures |r| == 12 || r == ["No weather information available."]
    ensures |r| == 12 ==> r[1] == "Weather in " + Location(Strip(cityAnswer), Strip(countryAnswer)) + ":"
    ensures |r| == 12 ==> Sendable(MainRequest(cityAnswer, countryAnswer))
  {
    var city := Strip(cityAnswer);
    Report(GetWeather(city, CodeFor(countryAnswer), service), city, Strip(countryAnswer))
  }

  /** A recognised country is sent as its code after the city. */
  lemma RecognisedCountryIsSent(cityAnswer: string, countryAnswer: string, code: string)
    requires GetCountryCode(Strip(countryAnswer)) == Some(code)
    ensures MainRequest(cityAnswer, countryAnswer) == "/" + Strip(cityAnswer) + "," + code + "?format=j1"
  {
    CodeForRecognised(countryAnswer, code);
    RequestWithCode(Strip(cityAnswer), code);
  }

  /** A recognised country is looked up (its answer cannot be blank) and
      yields a code that is not empty. */
  lemma CodeForRecognised(countryAnswer: string, code: string)
    requires GetCountryCode(Strip(countryAnswer)) == Some(code)
    ensures CodeFor(countryAnswer) == Some(code) && code != []
  {
    CodeShape(Strip(countryAnswer), code);
  }

  /** An unrecognised country, and any typed code, is silently dropped
      from the request, while the heading still shows it. */
  lemma UnknownCountryIsDropped(cityAnswer: string, countryAnswer: string, service: string -> Reply)
    requires GetCountryCode(Strip(countryAnswer)) == None
    ensures MainRequest(cityAnswer, countryAnswer) == "/" + Strip(cityAnswer) + "?format=j1"
    ensures var lines := CheckWeather(cityAnswer, countryAnswer, service);
            |lines| == 12 ==> lines[1] == "Weather in " + Location(Strip(cityAnswer), Strip(countryAnswer)) + ":"
  {
  }

  /** A typed city with a space inside it gets no report at all. */
  lemma SpacedCityGetsNoReport(cityAnswer: string, countryAnswer: string, service: string -> Reply, i: nat)
    requires i < |Strip(cityAnswer)| && Strip(cityAnswer)[i] == ' '
    ensures CheckWeather(cityAnswer, countryAnswer, service) == ["No weather information available."]
  {
    SpacedCityIsNeverSent(Strip(cityAnswer), CodeFor(countryAnswer), service, i);
  }

  /** In particular a two- or three-letter answer never reaches the service. */
  lemma TypedCodeIsDropped(cityAnswer: string, countryAnswer: string)
    requires |Strip(countryAnswer)| < 4
    ensures MainRequest(cityAnswer, countryAnswer) == "/" + Strip(cityAnswer) + "?format=j1"
  {
    ShortInputHasNoCode(Strip(countryAnswer));
  }
}
