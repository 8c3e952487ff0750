/**
  The form controller's submit handler: trim the location, then either
  alert or request weather data.
 */
module Form {
  import opened Text

  const InvalidLocationMessage := "Please enter a valid location."

  /** What one submission does: a blocking alert and no request, or a
      request for the given city with the AQI choice as selected. */
  datatype SubmitOutcome = Alert(message: string) | Request(cityName: string, aqi: string)

  function Submit(locationValue: string, aqiValue: string): (o: SubmitOutcome)
    ensures o.Alert? <==> AllWhitespace(locationValue)
    ensures o.Alert? ==> o.message == InvalidLocationMessage
    ensures o.Request? ==> IsTrimOf(o.cityName, locationValue) && o.cityName != [] && o.aqi == aqiValue
  {
    var cityName := Trim(locationValue);
    if cityName != [] then Request(cityName, aqiValue) else Alert(InvalidLocationMessage)
  }

  /** A request always carries a name without leading or trailing
      whitespace, so submitting what was requested asks for the same city. */
  lemma ResubmitRequestsSameCity(locationValue: string, aqiValue: string)
    requires !AllWhitespace(locationValue)
    ensures Submit(Submit(locationValue, aqiValue).cityName, aqiValue) == Submit(locationValue, aqiValue)
  {
    TrimIdempotent(locationValue);
  }

  /** Surrounding whitespace never changes what a submission does. */
  lemma SubmitIgnoresPadding(locationValue: string, pad: string, pad': string, aqiValue: string)
    requires AllWhitespace(pad) && AllWhitespace(pad')
    ensures Submit(pad + locationValue + pad', aqiValue) == Submit(locationValue, aqiValue)
  {
    TrimIgnoresPadding(locationValue, pad, pad');
  }
}
