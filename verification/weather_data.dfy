/**
  The weather data transformer: the rainfall heuristic and the mapping from
  the weather API's response to the record the page displays.
 */
module WeatherData {
  import opened JsValues

  /** The parts of the API response's `location` object the page reads. */
  datatype Location = Location(name: string, region: string, country: string,
                               lat: real, lon: real, localtime: string)

  /** The parts of the response's `current` object the page reads;
      `air_quality` is absent unless the request asked for it. */
  datatype Current = Current(temp_c: real, humidity: real, wind_kph: real, cloud: real,
                             air_quality: Option<JsObject>)

  datatype RawResponse = RawResponse(location: Location, current: Current)

  /** The display-ready record (`Info`). */
  datatype WeatherInfo = WeatherInfo(location: string, region: string, country: string,
                                     lat: real, lon: real, time: string,
                                     temp_c: real, humidity: real, wind_kph: real, cloud: real,
                                     rain_prob: string)

  /** What `processData` hands to the renderer: `{ Info, aqiInfo }`,
      with `aqiInfo` null (`None`) when there is nothing to show. */
  datatype DisplayResult = DisplayResult(info: WeatherInfo, aqiInfo: Option<JsObject>)

  const High := "High"
  const Low := "Low"

  /** The only AQI choice that asks for air-quality data (compared with `===`). */
  const AqiYes := "yes"

  /** The four conditions of the rainfall heuristic, all strict. */
  predicate RainLikely(temperature: real, humidity: real, windSpeed: real, cloudCover: real) {
    humidity > 70.0 && temperature < 20.0 && windSpeed < 15.0 && cloudCover > 50.0
  }

  function RainfallProbability(temperature: real, humidity: real, windSpeed: real, cloudCover: real): (r: string)
    ensures r == High || r == Low
    ensures r == High <==> RainLikely(temperature, humidity, windSpeed, cloudCover)
  {
    if humidity > 70.0 && temperature < 20.0 && windSpeed < 15.0 && cloudCover > 50.0 then High else Low
  }

  /** A value sitting exactly on any of the four thresholds gives "Low". */
  lemma ThresholdsGiveLow(temperature: real, humidity: real, windSpeed: real, cloudCover: real)
    requires humidity == 70.0 || temperature == 20.0 || windSpeed == 15.0 || cloudCover == 50.0
    ensures RainfallProbability(temperature, humidity, windSpeed, cloudCover) == Low
  {
  }

  /** More humid, colder, calmer and cloudier weather never lowers the
      verdict: "High" is kept when every input moves the rain-ward way. */
  lemma RainfallMonotone(t: real, h: real, w: real, c: real, t': real, h': real, w': real, c': real)
    requires t' <= t && h' >= h && w' <= w && c' >= c
    ensures RainfallProbability(t, h, w, c) == High ==> RainfallProbability(t', h', w', c') == High
  {
  }

  /** Two sample readings: 15 C at 80% humidity, 5 kph wind and 60% cloud
      is "High"; the same reading at 25 C is "Low". */
  lemma RainfallExamples()
    ensures RainfallProbability(15.0, 80.0, 5.0, 60.0) == High
    ensures RainfallProbability(25.0, 80.0, 5.0, 60.0) == Low
  {
  }

  function ProcessData(data: RawResponse, aqi: string): (r: DisplayResult)
    ensures r.info.location == data.location.name
    ensures r.info.region == data.location.region
    ensures r.info.country == data.location.country
    ensures r.info.lat == data.location.lat && r.info.lon == data.location.lon
    ensures r.info.time == data.location.localtime
    ensures r.info.temp_c == data.current.temp_c && r.info.humidity == data.current.humidity
    ensures r.info.wind_kph == data.current.wind_kph && r.info.cloud == data.current.cloud
    ensures r.info.rain_prob == High || r.info.rain_prob == Low
    ensures r.info.rain_prob == High
            <==> RainLikely(data.current.temp_c, data.current.humidity, data.current.wind_kph, data.current.cloud)
    ensures r.aqiInfo.Some? <==> aqi == AqiYes && data.current.air_quality.Some?
    ensures r.aqiInfo.Some? ==> r.aqiInfo == data.current.air_quality
  {
    var current := data.current;
    var info := WeatherInfo(
      data.location.name, data.location.region, data.location.country,
      data.location.lat, data.location.lon, data.location.localtime,
      current.temp_c, current.humidity, current.wind_kph, current.cloud,
      RainfallProbability(current.temp_c, current.humidity, current.wind_kph, current.cloud));
    var aqiInfo := if aqi == AqiYes && current.air_quality.Some? then current.air_quality else None;
    DisplayResult(info, aqiInfo)
  }

  /** The record depends on the AQI choice only through `aqiInfo`. */
  lemma ProcessDataInfoIgnoresAqi(data: RawResponse, aqi: string, aqi': string)
    ensures ProcessData(data, aqi).info == ProcessData(data, aqi').info
  {
  }

  /** Asking for no AQI data never yields any, whatever the response carries. */
  lemma NoAqiUnlessRequested(data: RawResponse, aqi: string)
    requires aqi != AqiYes
    ensures ProcessData(data, aqi).aqiInfo == None
  {
  }

  /** The property names of the `Info` object, in the order it is built. */
  const InfoKeys: seq<string> := ["location", "region", "country", "lat", "lon", "time",
                                  "temp_c", "humidity", "wind_kph", "cloud", "rain_prob"]

  /** The values of the `Info` object, in the order of `InfoKeys`. */
  function InfoValues(info: WeatherInfo): (vs: seq<Value>)
    ensures |vs| == |InfoKeys|
    ensures forall i :: 0 <= i < |vs| ==> vs[i] != Null
  {
    [Str(info.location), Str(info.region), Str(info.country), Num(info.lat), Num(info.lon),
     Str(info.time), Num(info.temp_c), Num(info.humidity), Num(info.wind_kph), Num(info.cloud),
     Str(info.rain_prob)]
  }

  /** `Info` as the plain object the table renderer receives. */
  function InfoObject(info: WeatherInfo): (o: JsObject)
    ensures |o.entries| == |InfoKeys|
    ensures forall i :: 0 <= i < |InfoKeys| ==> o.entries[i] == (InfoKeys[i], InfoValues(info)[i])
    ensures WellFormed(o)
  {
    var vs := InfoValues(info);
    JsObject(seq(|InfoKeys|, i requires 0 <= i < |InfoKeys| => (InfoKeys[i], vs[i])))
  }
}
