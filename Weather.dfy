/**
 * The weather service (weatherService.ts): the icon for a temperature, and the
 * checks and mapping applied to the decoded weather response. The request
 * itself is left out; the decoded JSON body is the parameter. Temperatures are
 * exact reals.
 */
module Weather {
  import opened Common

  const Snow: string := "\U{2744}\U{FE0F}"
  const SunBehindCloud: string := "\U{1F324}\U{FE0F}"
  const Sun: string := "\U{2600}\U{FE0F}"
  const Fire: string := "\U{1F525}"

  /** Which of the four icons a temperature shows, coldest first. */
  function IconLevel(temp: real): (r: nat)
    ensures r <= 3
    ensures r == 0 <==> temp < 10.0
    ensures r == 1 <==> 10.0 <= temp < 20.0
    ensures r == 2 <==> 20.0 <= temp < 30.0
    ensures r == 3 <==> 30.0 <= temp
  {
    if temp < 10.0 then 0 else if temp < 20.0 then 1 else if temp < 30.0 then 2 else 3
  }

  function IconOfLevel(level: nat): string {
    if level == 0 then Snow else if level == 1 then SunBehindCloud else if level == 2 then Sun else Fire
  }

  /** `getWeatherIcon`: snow below 10, sun behind cloud below 20, sun below 30, fire from 30. */
  function WeatherIcon(temp: real): (r: string)
    ensures r == Snow <==> temp < 10.0
    ensures r == SunBehindCloud <==> 10.0 <= temp < 20.0
    ensures r == Sun <==> 20.0 <= temp < 30.0
    ensures r == Fire <==> 30.0 <= temp
  {
    if temp < 10.0 then Snow
    else if temp < 20.0 then SunBehindCloud
    else if temp < 30.0 then Sun
    else Fire
  }

  /** The icon is the one of its level, so a warmer temperature never shows a colder icon. */
  lemma IconMonotone(a: real, b: real)
    requires a <= b
    ensures WeatherIcon(a) == IconOfLevel(IconLevel(a)) && WeatherIcon(b) == IconOfLevel(IconLevel(b))
    ensures IconLevel(a) <= IconLevel(b)
  {
  }

  /** `Math.round`: the nearest integer, halves going up. */
  function RoundHalfUp(x: real): (r: int)
    ensures x - 0.5 < r as real <= x + 0.5
  {
    (x + 0.5).Floor
  }

  /** Rounding is the only integer within half a degree below and at most half above. */
  lemma RoundHalfUpUnique(x: real, n: int)
    requires x - 0.5 < n as real <= x + 0.5
    ensures RoundHalfUp(x) == n
  {
  }

  // ---------------------------------------------------------------------
  // getWeatherByLocation
  // ---------------------------------------------------------------------

  /** The `cod` field: absent, a string, or a number. */
  datatype Cod = NoCod | StrCod(s: string) | NumCod(n: int)

  datatype Main = Main(temp: real)

  datatype Condition = Condition(description: string)

  /** The decoded body: `main`, `weather` and `name` may each be missing. */
  datatype Response = Response(cod: Cod, main: Option<Main>, weather: Option<seq<Condition>>, name: Option<string>)

  datatype WeatherData = WeatherData(temperature: int, weatherIcon: string, description: string,
                                     location: Option<string>)

  const LocationNotFound: string := "Location not found"
  const InvalidData: string := "Invalid weather data received"

  /** `data.cod === '404' || data.cod === '400'`: only the strings count. */
  predicate NotFoundCod(cod: Cod) {
    cod == StrCod("404") || cod == StrCod("400")
  }

  predicate Complete(data: Response) {
    data.main.Some? && data.weather.Some? && |data.weather.value| > 0
  }

  /**
   * The checks and mapping of `getWeatherByLocation`: a not-found code fails
   * first, then a body without `main` or a first weather entry; otherwise the
   * temperature is rounded, the icon taken from the unrounded temperature, and
   * the first entry's description and the name passed on.
   */
  function ParseWeather(data: Response): (r: Result<WeatherData, string>)
    ensures r == Err(LocationNotFound) <==> NotFoundCod(data.cod)
    ensures r == Err(InvalidData) <==> !NotFoundCod(data.cod) && !Complete(data)
    ensures r.Ok? <==> !NotFoundCod(data.cod) && Complete(data)
    ensures r.Ok? ==>
      && r.value.temperature == RoundHalfUp(data.main.value.temp)
      && r.value.weatherIcon == WeatherIcon(data.main.value.temp)
      && r.value.description == data.weather.value[0].description
      && r.value.location == data.name
  {
    if NotFoundCod(data.cod) then Err(LocationNotFound)
    else if data.main.None? || data.weather.None? || |data.weather.value| == 0 then Err(InvalidData)
    else
      var temp := data.main.value.temp;
      Ok(WeatherData(RoundHalfUp(temp), WeatherIcon(temp), data.weather.value[0].description, data.name))
  }

  /** The comparison is strict: a numeric 404 is not a not-found code and passes through to the other checks. */
  lemma NumericCodPassesThrough(data: Response)
    requires data.cod == NumCod(404) || data.cod == NumCod(400)
    ensures ParseWeather(data) != Err(LocationNotFound)
    ensures ParseWeather(data).Ok? == Complete(data)
  {
  }

  /**
   * The icon follows the unrounded temperature, so it can disagree with the
   * number shown: 9.5 degrees show as 10 under the snow icon, while 10 shows the
   * sun behind a cloud.
   */
  lemma IconFromUnroundedTemperature()
    ensures var data := Response(StrCod("200"), Some(Main(9.5)), Some([Condition("mist")]), Some("Oslo"));
      && ParseWeather(data) == Ok(WeatherData(10, Snow, "mist", Some("Oslo")))
      && WeatherIcon(10.0) == SunBehindCloud
  {
    var data := Response(StrCod("200"), Some(Main(9.5)), Some([Condition("mist")]), Some("Oslo"));
    assert RoundHalfUp(9.5) == 10 by { RoundHalfUpUnique(9.5, 10); }
  }

  /** Shown and iconic temperatures agree away from the half-degree below each threshold. */
  lemma IconAgreesWithShown(t: real)
    requires t < 9.5 || 10.0 <= t < 19.5 || 20.0 <= t < 29.5 || 30.0 <= t
    ensures WeatherIcon(t) == WeatherIcon(RoundHalfUp(t) as real)
  {
  }
}
