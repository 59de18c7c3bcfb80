/** WeatherAppExercise's home controller: a fixed list of cities shown on the index page, and a
    city page that picks a city from a second fixed list by its unique code. */
module WeatherApp {
  import opened Wrappers
  import opened Calendar

  datatype CityWeather = CityWeather(
    cityUniqueCode: string,
    cityName: string,
    dateAndTime: DateTime,
    temperatureFahrenheit: int)

  /** `Convert.ToDateTime("2030-01-01 h:00")`. */
  function OnFirstJanuary2030(hour: nat): DateTime {
    DateTime(2030, 1, 1, hour * TicksPerHour)
  }

  const London := CityWeather("LDN", "London", OnFirstJanuary2030(8), 33)
  const Paris := CityWeather("PAR", "Paris", OnFirstJanuary2030(9), 82)

  /** The model of the index view: LDN, NYC, PAR in that order, at 33, 60 and 82 degrees
      Fahrenheit, each with a valid date. */
  function Index(): (r: seq<CityWeather>)
    ensures |r| == 3
    ensures r[0].cityUniqueCode == "LDN" && r[0].temperatureFahrenheit == 33
    ensures r[1].cityUniqueCode == "NYC" && r[1].temperatureFahrenheit == 60
    ensures r[2].cityUniqueCode == "PAR" && r[2].temperatureFahrenheit == 82
    ensures forall i :: 0 <= i < |r| ==> Valid(r[i].dateAndTime)
  {
    [London, CityWeather("NYC", "New York", OnFirstJanuary2030(3), 60), Paris]
  }

  /** The list the city action searches: the same three cities as the index, in the same order,
      except that it names New York "New York City". */
  function CityList(): (r: seq<CityWeather>)
    ensures |r| == 3
    ensures r[0].cityUniqueCode == "LDN" && r[0].cityName == "London" && r[0].temperatureFahrenheit == 33
    ensures r[1].cityUniqueCode == "NYC" && r[1].cityName == "New York City" && r[1].temperatureFahrenheit == 60
    ensures r[2].cityUniqueCode == "PAR" && r[2].cityName == "Paris" && r[2].temperatureFahrenheit == 82
    ensures forall i :: 0 <= i < |r| ==> Valid(r[i].dateAndTime)
  {
    [London, CityWeather("NYC", "New York City", OnFirstJanuary2030(3), 60), Paris]
  }

  /** The filter `cityWeather.CityUniqueCode == cityUniqueCode`: ordinal, case-sensitive string
      equality, which is false against a null argument. */
  predicate HasCode(c: CityWeather, code: Option<string>) {
    code == Some(c.cityUniqueCode)
  }

  /** `list.Where(HasCode).FirstOrDefault()`: the first entry with the code, or null. */
  function FirstWithCode(list: seq<CityWeather>, code: Option<string>): (r: Option<CityWeather>)
    ensures r.None? <==> forall i :: 0 <= i < |list| ==> !HasCode(list[i], code)
    ensures r.Some? ==> exists i :: (0 <= i < |list| && list[i] == r.value && HasCode(r.value, code)
      && forall j :: 0 <= j < i ==> !HasCode(list[j], code))
    decreases |list|
  {
    if list == [] then None
    else if HasCode(list[0], code) then Some(list[0])
    else
      var r := FirstWithCode(list[1..], code);
      assert forall i :: 0 < i < |list| ==> list[i] == list[1..][i - 1];
      r
  }

  /** The "weather/{cityUniqueCode}" action. When the code is null, the `BadRequest` result is
      built but not returned, so the action goes on to search with a null code. Only the three
      listed codes find a city, and a found city carries the requested code; any other code, a
      code in other case ("ldn") and a null code included, gives a null model. */
  function City(cityUniqueCode: Option<string>): (r: Option<CityWeather>)
    ensures r.Some? <==> cityUniqueCode in {Some("LDN"), Some("NYC"), Some("PAR")}
    ensures r.Some? ==> r.value in CityList() && HasCode(r.value, cityUniqueCode)
  {
    FirstWithCode(CityList(), cityUniqueCode)
  }

  /** The codes of the city list are distinct, so a found city is the only one with its code. */
  lemma CodesDistinct()
    ensures forall i, j :: 0 <= i < j < |CityList()| ==> CityList()[i].cityUniqueCode != CityList()[j].cityUniqueCode
  {
  }

  /** The two lists agree everywhere except New York's name. */
  lemma ListsDifferOnlyInNewYorksName()
    ensures |Index()| == |CityList()| == 3
    ensures Index()[0] == CityList()[0] && Index()[2] == CityList()[2]
    ensures Index()[1] == CityList()[1].(cityName := "New York")
    ensures CityList()[1].cityName == "New York City"
  {
  }

  /** Each listed code finds its city. */
  lemma KnownCodes()
    ensures City(Some("LDN")) == Some(London)
    ensures City(Some("NYC")) == Some(CityList()[1])
    ensures City(Some("PAR")) == Some(Paris)
  {
  }

  /** A found city is the only entry of the list with the requested code. */
  lemma FoundCityIsUnique(code: Option<string>)
    ensures City(code).Some? ==>
      forall i :: 0 <= i < |CityList()| && HasCode(CityList()[i], code) ==> CityList()[i] == City(code).value
  {
    CodesDistinct();
  }

  /** What the city action hands back once the null guard actually returns its result. */
  datatype CityActionResult = BadRequest(message: string) | View(model: Option<CityWeather>)

  const MissingCode := "You must enter a city unique code to access the view"

  /** The city action with the guard's `BadRequest` returned, as the guard evidently intends. */
  function CityChecked(cityUniqueCode: Option<string>): (r: CityActionResult)
    ensures r.BadRequest? <==> cityUniqueCode.None?
    ensures r.BadRequest? ==> r.message == MissingCode
    ensures r.View? ==> (r.model.Some? <==> cityUniqueCode in {Some("LDN"), Some("NYC"), Some("PAR")})
  {
    if cityUniqueCode.None? then BadRequest(MissingCode) else View(City(cityUniqueCode))
  }

  /** The corrected action rejects exactly the null code, and otherwise shows what `City` finds. */
  lemma CityCheckedRejectsOnlyNull(cityUniqueCode: Option<string>)
    ensures CityChecked(cityUniqueCode).BadRequest? <==> cityUniqueCode.None?
    ensures cityUniqueCode.Some? ==> CityChecked(cityUniqueCode) == View(FirstWithCode(CityList(), cityUniqueCode))
  {
  }

  /** As written, a null code is not rejected: it reaches the view as a null model, exactly like an
      unknown code does. */
  lemma NullCodeReachesView()
    ensures City(None) == None && City(None) == City(Some("XYZ"))
    ensures CityChecked(None) == BadRequest(MissingCode)
  {
  }
}
