/**
  `displayWeatherInfo` as a state transformer on the page's three output
  containers.
 */
module Render {
  import opened JsValues
  import opened WeatherData
  import opened Tables

  /** A child of a container: a table the page rendered, or any other markup
      that was there before. */
  datatype Node = TableNode(table: Table) | Markup(html: string)

  /** The weather-info container, the weather-table container and the
      AQI-table container, each as its list of children. */
  datatype Containers = Containers(weatherInfo: seq<Node>, weatherTable: seq<Node>, aqiTable: seq<Node>)

  const WeatherHeadings: seq<string> := [
    "Location", "Region", "Country", "Latitude", "Longitude", "Time of Day",
    "Temperature", "Humidity", "Wind Speed", "Cloud Cover", "Rainfall Probability"
  ]

  const AqiHeadings: seq<string> := [
    "CO (\U{00B5}g/m\U{00B3})", "NO2 (\U{00B5}g/m\U{00B3})", "O3 (\U{00B5}g/m\U{00B3})",
    "SO2 (\U{00B5}g/m\U{00B3})", "PM2.5 (\U{00B5}g/m\U{00B3})", "PM10 (\U{00B5}g/m\U{00B3})",
    "US EPA Index", "GB DEFRA Index"
  ]

  /** The properties the AQI headings map to, column by column. */
  const AqiKeys: seq<string> := ["co", "no2", "o3", "so2", "pm2_5", "pm10", "us-epa-index", "gb-defra-index"]

  /** Setting `innerHTML = ""` on all three containers. */
  function ClearAll(page: Containers): (p: Containers)
    ensures p.weatherInfo == [] && p.weatherTable == [] && p.aqiTable == []
  {
    page.(weatherInfo := [], weatherTable := [], aqiTable := [])
  }

  /** The basic weather table built from `Info`: the weather headings, and
      under each the fallback-chain cell over `Info` with no positional
      values. */
  function WeatherTable(info: WeatherInfo): (t: Table)
    ensures |t.rows| == 2 && !t.displayBlock
    ensures |t.rows[0]| == |WeatherHeadings| == |t.rows[1]|
    ensures forall i :: 0 <= i < |WeatherHeadings| ==> t.rows[0][i] == Cell(Str(WeatherHeadings[i]), 1)
    ensures forall i :: 0 <= i < |WeatherHeadings| ==>
              t.rows[1][i] == ValueCell(InfoObject(info), HeadingMap, [], WeatherHeadings[i], i)
  {
    CreateTable(Some(InfoObject(info)), WeatherHeadings, [], HeadingMap)
  }

  /** The AQI table: data `{ locationInfo: null, ...aqiInfo }`, positional
      fallback `Object.values(aqiInfo)`, shown as a block. */
  function AqiTable(aqiInfo: JsObject): (t: Table)
    ensures |t.rows| == 2 && t.displayBlock
    ensures |t.rows[0]| == |AqiHeadings| == |t.rows[1]|
    ensures forall i :: 0 <= i < |AqiHeadings| ==> t.rows[0][i] == Cell(Str(AqiHeadings[i]), 1)
    ensures forall i :: 0 <= i < |AqiHeadings| ==>
              t.rows[1][i] == ValueCell(WithLocationInfo(aqiInfo), HeadingMap, Values(aqiInfo), AqiHeadings[i], i)
  {
    CreateTable(Some(WithLocationInfo(aqiInfo)), AqiHeadings, Values(aqiInfo), HeadingMap).(displayBlock := true)
  }

  function DisplayWeatherInfo(page: Containers, weatherInfo: DisplayResult, aqi: string): (p: Containers)
    ensures p.weatherTable == [TableNode(WeatherTable(weatherInfo.info))]
    ensures p.aqiTable == []
    ensures aqi == AqiYes && weatherInfo.aqiInfo.Some?
            ==> p.weatherInfo == [TableNode(AqiTable(weatherInfo.aqiInfo.value))]
    ensures !(aqi == AqiYes && weatherInfo.aqiInfo.Some?) ==> p.weatherInfo == []
  {
    var cleared := ClearAll(page);
    var shown := cleared.(weatherTable := cleared.weatherTable + [TableNode(WeatherTable(weatherInfo.info))]);
    if aqi == AqiYes && weatherInfo.aqiInfo.Some? then
      shown.(weatherInfo := shown.weatherInfo + [TableNode(AqiTable(weatherInfo.aqiInfo.value))])
    else
      shown
  }

  /** Nothing rendered before survives: the result does not depend on what
      the containers held. */
  lemma DisplayForgetsPriorContent(page: Containers, page': Containers, weatherInfo: DisplayResult, aqi: string)
    ensures DisplayWeatherInfo(page, weatherInfo, aqi) == DisplayWeatherInfo(page', weatherInfo, aqi)
  {
  }

  /** Rendering the same result twice leaves the page as rendering it once. */
  lemma DisplayIdempotent(page: Containers, weatherInfo: DisplayResult, aqi: string)
    ensures DisplayWeatherInfo(DisplayWeatherInfo(page, weatherInfo, aqi), weatherInfo, aqi)
            == DisplayWeatherInfo(page, weatherInfo, aqi)
  {
    DisplayForgetsPriorContent(DisplayWeatherInfo(page, weatherInfo, aqi), page, weatherInfo, aqi);
  }

  /** The heading map sends each weather heading to the `Info` property in
      the same column. */
  lemma WeatherHeadingsMapToInfoKeys()
    ensures forall i :: 0 <= i < |WeatherHeadings| ==>
              MapHeading(HeadingMap, WeatherHeadings[i]) == Some(InfoKeys[i])
  {
    forall i | 0 <= i < |WeatherHeadings|
      ensures MapHeading(HeadingMap, WeatherHeadings[i]) == Some(InfoKeys[i])
    {
      assert WeatherHeadings[i] in HeadingMap;
    }
  }

  /** The basic weather table shows every `Info` field under its heading,
      never the placeholder and never the `values` array; in particular the
      "Rainfall Probability" column shows `rain_prob`. */
  lemma WeatherTableShowsInfo(info: WeatherInfo)
    ensures |WeatherTable(info).rows[1]| == |WeatherHeadings|
    ensures forall i :: 0 <= i < |WeatherHeadings| ==>
              WeatherTable(info).rows[1][i] == Cell(InfoValues(info)[i], 1)
    ensures WeatherTable(info).rows[1][10] == Cell(Str(info.rain_prob), 1)
  {
    var obj := InfoObject(info);
    WeatherHeadingsMapToInfoKeys();
    forall i | 0 <= i < |WeatherHeadings|
      ensures WeatherTable(info).rows[1][i] == Cell(InfoValues(info)[i], 1)
    {
      assert obj.entries[i] == (InfoKeys[i], InfoValues(info)[i]);
      LookupEntry(obj.entries, i);
      assert MappedKeyPresent(obj, HeadingMap, WeatherHeadings[i]);
    }
  }

  /** The heading map sends each AQI heading to the pollutant property in
      the same column, none of which is `locationInfo`. */
  lemma AqiHeadingsMapToAqiKeys()
    ensures forall i :: 0 <= i < |AqiHeadings| ==>
              MapHeading(HeadingMap, AqiHeadings[i]) == Some(AqiKeys[i]) && AqiKeys[i] != LocationInfoKey
  {
    forall i | 0 <= i < |AqiHeadings|
      ensures MapHeading(HeadingMap, AqiHeadings[i]) == Some(AqiKeys[i])
    {
      assert AqiHeadings[i] in HeadingMap;
    }
  }

  /** Column `i` of the AQI table shows pollutant property `AqiKeys[i]` when
      the air-quality object has it (the placeholder where it is null). */
  lemma AqiColumnShowsPollutant(aqiInfo: JsObject, i: nat)
    requires i < |AqiKeys| && AqiKeys[i] in Keys(aqiInfo)
    ensures AqiTable(aqiInfo).rows[1][i].content
            == (if Get(aqiInfo, AqiKeys[i]).value != Null then Get(aqiInfo, AqiKeys[i]).value else Str(NotAvailable))
  {
    var data := WithLocationInfo(aqiInfo);
    var t := CreateTable(Some(data), AqiHeadings, Values(aqiInfo), HeadingMap);
    AqiHeadingsMapToAqiKeys();
    assert Get(data, AqiKeys[i]) == Get(aqiInfo, AqiKeys[i]);
    assert MappedKeyPresent(data, HeadingMap, AqiHeadings[i]);
    assert t.rows[1][i] == ValueCell(data, HeadingMap, Values(aqiInfo), AqiHeadings[i], i);
  }

  /** For an air-quality object that carries all eight pollutant
      properties, the AQI table's value row lists them in heading order. */
  lemma AqiTableShowsPollutants(aqiInfo: JsObject)
    requires forall i :: 0 <= i < |AqiKeys| ==> AqiKeys[i] in Keys(aqiInfo)
    ensures |AqiTable(aqiInfo).rows[1]| == |AqiHeadings|
    ensures forall i :: 0 <= i < |AqiHeadings| ==>
              AqiTable(aqiInfo).rows[1][i].content
              == (if Get(aqiInfo, AqiKeys[i]).value != Null then Get(aqiInfo, AqiKeys[i]).value else Str(NotAvailable))
  {
    forall i | 0 <= i < |AqiHeadings|
      ensures AqiTable(aqiInfo).rows[1][i].content
              == (if Get(aqiInfo, AqiKeys[i]).value != Null then Get(aqiInfo, AqiKeys[i]).value else Str(NotAvailable))
    {
      AqiColumnShowsPollutant(aqiInfo, i);
    }
  }

  /** When the air-quality object lacks a pollutant, its column falls back to
      the value at the same position of `Object.values(aqiInfo)`, which may
      belong to another pollutant. */
  lemma AqiMissingPollutantUsesPosition(aqiInfo: JsObject, i: nat)
    requires i < |AqiKeys| && AqiKeys[i] !in Keys(aqiInfo)
    requires i < |aqiInfo.entries| && aqiInfo.entries[i].1 != Null
    ensures AqiTable(aqiInfo).rows[1][i].content == aqiInfo.entries[i].1
  {
    var data := WithLocationInfo(aqiInfo);
    AqiHeadingsMapToAqiKeys();
    assert Get(data, AqiKeys[i]) == Get(aqiInfo, AqiKeys[i]);
    assert !MappedKeyPresent(data, HeadingMap, AqiHeadings[i]);
  }

  /** Every table the page renders has data, so the spanning placeholder
      row never appears on it. */
  lemma RenderedTablesHaveValueRows(page: Containers, weatherInfo: DisplayResult, aqi: string)
    ensures forall n :: n in DisplayWeatherInfo(page, weatherInfo, aqi).weatherTable
                          + DisplayWeatherInfo(page, weatherInfo, aqi).weatherInfo ==>
              n.TableNode? && |n.table.rows[1]| == |n.table.rows[0]|
  {
  }

  /** After a successful response the "Rainfall Probability" column of the
      weather table reads "High" exactly when the response's current
      conditions meet the rainfall heuristic, and "Low" otherwise. */
  lemma RenderedRainfallMatchesHeuristic(page: Containers, data: RawResponse, aqi: string)
    ensures var p := DisplayWeatherInfo(page, ProcessData(data, aqi), aqi);
            var c := data.current;
            p.weatherTable[0].table.rows[1][10].content
            == Str(if RainLikely(c.temp_c, c.humidity, c.wind_kph, c.cloud) then High else Low)
  {
    WeatherTableShowsInfo(ProcessData(data, aqi).info);
  }
}
