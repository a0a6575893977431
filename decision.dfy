/** The deception rule both servers apply once a baseline exists:
    a heart rate more than 20 % above the baseline, or an average
    temperature more than half a degree below it, is an indicator.
    Indicators are collected heart rate first; the textual messages of
    the source are modelled as tagged values carrying the observed number. */
module Decision {

  /** `hr_threshold = baseline_hr * 1.20` */
  const HrFactor: real := 1.2
  /** `temp_threshold = baseline_temp - 0.5` */
  const TempDrop: real := 0.5

  datatype Reason =
    | ElevatedHeartRate(bpm: real)    // "Ritmo cardíaco elevado (...bpm)"
    | LowTemperature(celsius: real)   // "Temperatura baja (...°C)"

  predicate HrElevated(hr: real, baselineHr: real) {
    hr > baselineHr * HrFactor
  }

  predicate TempLow(temp: real, baselineTemp: real) {
    temp < baselineTemp - TempDrop
  }

  /** The list `indicadores` built by the two conditional appends. */
  function Reasons(hr: real, temp: real, baselineHr: real, baselineTemp: real): (r: seq<Reason>)
    ensures ElevatedHeartRate(hr) in r <==> HrElevated(hr, baselineHr)
    ensures LowTemperature(temp) in r <==> TempLow(temp, baselineTemp)
    ensures forall i :: 0 <= i < |r| ==> r[i] == ElevatedHeartRate(hr) || r[i] == LowTemperature(temp)
    ensures |r| == (if HrElevated(hr, baselineHr) then 1 else 0) + (if TempLow(temp, baselineTemp) then 1 else 0)
    ensures HrElevated(hr, baselineHr) ==> r[0] == ElevatedHeartRate(hr)
  {
    (if HrElevated(hr, baselineHr) then [ElevatedHeartRate(hr)] else [])
    + (if TempLow(temp, baselineTemp) then [LowTemperature(temp)] else [])
  }

  /** The rule is an OR of the two indicators. */
  lemma AnyIndicatorSuffices(hr: real, temp: real, baselineHr: real, baselineTemp: real)
    ensures |Reasons(hr, temp, baselineHr, baselineTemp)| > 0
            <==> HrElevated(hr, baselineHr) || TempLow(temp, baselineTemp)
  {
  }

  /** A baseline of 80 bpm and 32.0 °C: 100 bpm at 31.0 °C raises both
      indicators, 85 bpm at 32.0 °C raises none. */
  lemma ExampleDecisions()
    ensures Reasons(100.0, 31.0, 80.0, 32.0) == [ElevatedHeartRate(100.0), LowTemperature(31.0)]
    ensures Reasons(85.0, 32.0, 80.0, 32.0) == []
  {
  }
}
