/** The earlier three-phase detector (web/templates/app.py): the phase
    string `estado_prueba` moves from "inactivo" to "calibrando" when the
    broker connection succeeds, and from "calibrando" to "analizando" on
    the tenth reading. Unlike the production server, every reading counts
    toward calibration, whatever its heart rate. */
module Prototype {
  import opened Common
  import opened Decision

  const CalibrationSamples: nat := 10

  const Lying: string := "MINTIENDO"
  const Truthful: string := "DICIENDO LA VERDAD"

  /** The three values ever assigned to `estado_prueba`. */
  datatype Phase =
    | Inactive      // "inactivo"
    | Calibrating   // "calibrando"
    | Analyzing     // "analizando"

  /** The fields of the message dictionary that `handle_sensor_data` reads. */
  datatype Reading = Reading(heartRate: real, temperature: real)

  datatype Event =
    | Connected                                 // "Conectado. Iniciando calibración..."
    | CalibrationProgress(sample: nat)          // "Calibrando... Muestra i/10"
    | CalibrationComplete(hr: real, temp: real)
    | NewDecision(decision: string, reasons: seq<Reason>, hr: real, temp: real)

  datatype ProtoState = ProtoState(phase: Phase, readingsHr: seq<real>, readingsTemp: seq<real>,
                                   baselineHr: real, baselineTemp: real)

  const Initial: ProtoState := ProtoState(Inactive, [], [], 0.0, 0.0)

  datatype Step = Step(next: ProtoState, events: seq<Event>)

  function Verdict(reasons: seq<Reason>): (v: string)
    ensures v == Lying <==> |reasons| > 0
    ensures v == Lying || v == Truthful
  {
    if |reasons| > 0 then Lying else Truthful
  }

  /** `on_mqtt_connect`: a successful connection (rc == 0) starts calibration. */
  function ConnectStep(s: ProtoState, rc: int): (st: Step)
    ensures rc == 0 ==> st.next == s.(phase := Calibrating) && st.events == [Connected]
    ensures rc != 0 ==> st.next == s && st.events == []
  {
    if rc == 0 then Step(s.(phase := Calibrating), [Connected]) else Step(s, [])
  }

  /** One call of `handle_sensor_data`: only calibration changes the
      state; the tenth calibration reading switches to analysis with the
      means as baseline; an inactive detector emits nothing. */
  function HandleSensorStep(s: ProtoState, r: Reading): (st: Step)
    ensures s.phase != Calibrating ==> st.next == s
    ensures s.phase == Calibrating ==>
              (st.next.phase == Analyzing <==> |s.readingsHr| + 1 >= CalibrationSamples)
    ensures s.phase == Calibrating && st.next.phase == Analyzing ==>
              st.next == ProtoState(Analyzing, [], [], Mean(s.readingsHr + [r.heartRate]),
                                    Mean(s.readingsTemp + [r.temperature]))
    ensures s.phase == Calibrating && st.next.phase != Analyzing ==>
              st.next == s.(readingsHr := s.readingsHr + [r.heartRate],
                            readingsTemp := s.readingsTemp + [r.temperature])
    ensures st.events == [] <==> s.phase == Inactive
    ensures s.phase == Calibrating && st.next.phase == Analyzing ==>
              st.events == [CalibrationProgress(|s.readingsHr| + 1),
                            CalibrationComplete(st.next.baselineHr, st.next.baselineTemp)]
    ensures s.phase == Calibrating && st.next.phase != Analyzing ==>
              st.events == [CalibrationProgress(|s.readingsHr| + 1)]
  {
    match s.phase
    case Calibrating =>
      var hrs := s.readingsHr + [r.heartRate];
      var temps := s.readingsTemp + [r.temperature];
      if |hrs| >= CalibrationSamples then
        Step(ProtoState(Analyzing, [], [], Mean(hrs), Mean(temps)),
             [CalibrationProgress(|hrs|), CalibrationComplete(Mean(hrs), Mean(temps))])
      else
        Step(s.(readingsHr := hrs, readingsTemp := temps), [CalibrationProgress(|hrs|)])
    case Analyzing =>
      var reasons := Reasons(r.heartRate, r.temperature, s.baselineHr, s.baselineTemp);
      Step(s, [NewDecision(Verdict(reasons), reasons, r.heartRate, r.temperature)])
    case Inactive =>
      Step(s, [])
  }

  /** Before the broker connection nothing is recorded or decided. */
  lemma InactiveIgnoresReadings(s: ProtoState, r: Reading)
    requires s.phase == Inactive
    ensures HandleSensorStep(s, r) == Step(s, [])
  {
  }

  /** In the analysing phase the state is left alone and one decision is
      emitted, "MINTIENDO" iff an indicator fired. */
  lemma AnalyzingDecides(s: ProtoState, r: Reading)
    requires s.phase == Analyzing
    ensures var st := HandleSensorStep(s, r);
      && st.next == s
      && |st.events| == 1 && st.events[0].NewDecision?
      && st.events[0].reasons == Reasons(r.heartRate, r.temperature, s.baselineHr, s.baselineTemp)
      && st.events[0].hr == r.heartRate && st.events[0].temp == r.temperature
      && st.events[0].decision == Verdict(st.events[0].reasons)
      && (st.events[0].decision == Truthful
          <==> !HrElevated(r.heartRate, s.baselineHr) && !TempLow(r.temperature, s.baselineTemp))
  {
    AnyIndicatorSuffices(r.heartRate, r.temperature, s.baselineHr, s.baselineTemp);
  }

  function Run(s: ProtoState, rs: seq<Reading>): ProtoState
    decreases |rs|
  {
    if rs == [] then s else HandleSensorStep(Run(s, rs[..|rs| - 1]), rs[|rs| - 1]).next
  }

  function HeartRates(rs: seq<Reading>): (r: seq<real>)
    ensures |r| == |rs|
  {
    seq(|rs|, i requires 0 <= i < |rs| => rs[i].heartRate)
  }

  function Temps(rs: seq<Reading>): (r: seq<real>)
    ensures |r| == |rs|
  {
    seq(|rs|, i requires 0 <= i < |rs| => rs[i].temperature)
  }

  /** Starting to calibrate with empty accumulators, every reading (also one
      with a heart rate of 0 or below) is accumulated; the tenth moves to the
      analysing phase with the means of the first ten as the baseline, and
      the baseline stays put afterwards. */
  lemma {:induction false} CalibrationCountsEveryReading(s: ProtoState, rs: seq<Reading>)
    requires s.phase == Calibrating && s.readingsHr == [] && s.readingsTemp == []
    ensures var t := Run(s, rs);
            if |rs| < CalibrationSamples then
              t == s.(readingsHr := HeartRates(rs), readingsTemp := Temps(rs))
            else
              t == ProtoState(Analyzing, [], [], Mean(HeartRates(rs[..CalibrationSamples])),
                              Mean(Temps(rs[..CalibrationSamples])))
    decreases |rs|
  {
    if rs != [] {
      var p, r := rs[..|rs| - 1], rs[|rs| - 1];
      CalibrationCountsEveryReading(s, p);
      if |p| < CalibrationSamples {
        assert HeartRates(rs) == HeartRates(p) + [r.heartRate];
        assert Temps(rs) == Temps(p) + [r.temperature];
        if |rs| == CalibrationSamples {
          assert rs[..CalibrationSamples] == rs;
        }
      } else {
        assert rs[..CalibrationSamples] == p[..CalibrationSamples];
      }
    }
  }

  /** The accumulators run in parallel and hold fewer than ten readings. */
  predicate Consistent(s: ProtoState) {
    |s.readingsHr| == |s.readingsTemp| < CalibrationSamples
  }

  lemma StepsPreserveConsistency(s: ProtoState, r: Reading, rc: int)
    requires Consistent(s)
    ensures Consistent(HandleSensorStep(s, r).next) && Consistent(ConnectStep(s, rc).next)
  {
  }

  // ---------------------------------------------------------------------
  // The simulator scenario (data_simulator_thread)
  // ---------------------------------------------------------------------

  /** The i-th calibration reading of the simulator: 75 + i bpm, 32.5 - 0.1 i °C. */
  function SimulatedReading(i: nat): Reading {
    Reading(75.0 + i as real, 32.5 - i as real * 0.1)
  }

  function SimulatedCalibration(n: nat): (rs: seq<Reading>)
    ensures |rs| == n
  {
    seq(n, i requires 0 <= i < n => SimulatedReading(i))
  }

  lemma SimulatedMeans()
    ensures Mean(HeartRates(SimulatedCalibration(CalibrationSamples))) == 79.5
    ensures Mean(Temps(SimulatedCalibration(CalibrationSamples))) == 32.05
  {
    var rs := SimulatedCalibration(CalibrationSamples);
    var hrs, ts := HeartRates(rs), Temps(rs);
    SumOfTen(hrs);
    SumOfTen(ts);
    assert hrs[0] + hrs[1] + hrs[2] + hrs[3] + hrs[4] + hrs[5] + hrs[6] + hrs[7] + hrs[8] + hrs[9] == 795.0;
    assert ts[0] + ts[1] + ts[2] + ts[3] + ts[4] + ts[5] + ts[6] + ts[7] + ts[8] + ts[9] == 320.5;
  }

  /** The ten simulated calibration readings give a baseline of 79.5 bpm and
      32.05 °C; then 80 bpm at 32.0 °C raises nothing and 110 bpm at 31.2 °C
      raises both indicators. */
  lemma SimulatorScenario()
    ensures var t := Run(Initial.(phase := Calibrating), SimulatedCalibration(CalibrationSamples));
      && t == ProtoState(Analyzing, [], [], 79.5, 32.05)
      && HandleSensorStep(t, Reading(80.0, 32.0)).events == [NewDecision(Truthful, [], 80.0, 32.0)]
      && HandleSensorStep(t, Reading(110.0, 31.2)).events
         == [NewDecision(Lying, [ElevatedHeartRate(110.0), LowTemperature(31.2)], 110.0, 31.2)]
  {
    var rs := SimulatedCalibration(CalibrationSamples);
    CalibrationCountsEveryReading(Initial.(phase := Calibrating), rs);
    assert rs[..CalibrationSamples] == rs;
    SimulatedMeans();
    assert !HrElevated(80.0, 79.5) && !TempLow(32.0, 32.05);
    assert HrElevated(110.0, 79.5) && TempLow(31.2, 32.05);
    var lying := Reasons(110.0, 31.2, 79.5, 32.05);
    assert lying == [ElevatedHeartRate(110.0), LowTemperature(31.2)];
    assert Verdict(lying) == Lying;
  }

  lemma SumOfTen(s: seq<real>)
    requires |s| == 10
    ensures Sum(s) == s[0] + s[1] + s[2] + s[3] + s[4] + s[5] + s[6] + s[7] + s[8] + s[9]
  {
    SumFrom(s, 0); SumFrom(s, 1); SumFrom(s, 2); SumFrom(s, 3); SumFrom(s, 4);
    SumFrom(s, 5); SumFrom(s, 6); SumFrom(s, 7); SumFrom(s, 8); SumFrom(s, 9);
    assert s[0..] == s;
    assert s[10..] == [];
  }

  lemma SumFrom(s: seq<real>, k: nat)
    requires k < |s|
    ensures Sum(s[k..]) == s[k] + Sum(s[k + 1..])
  {
    assert s[k..][1..] == s[k + 1..];
  }

  // ---------------------------------------------------------------------
  // The server state
  // ---------------------------------------------------------------------

  class Detector {
    /** `estado_prueba` */
    var phase: Phase
    /** `lecturas_calibracion_hr`, `lecturas_calibracion_temp` */
    var readingsHr: seq<real>
    var readingsTemp: seq<real>
    var baselineHr: real
    var baselineTemp: real

    function State(): ProtoState
      reads this
    {
      ProtoState(phase, readingsHr, readingsTemp, baselineHr, baselineTemp)
    }

    constructor ()
      ensures State() == Initial
    {
      phase := Inactive;
      readingsHr, readingsTemp := [], [];
      baselineHr, baselineTemp := 0.0, 0.0;
    }

    /** `on_mqtt_connect` */
    method OnMqttConnect(rc: int) returns (events: seq<Event>)
      modifies this
      ensures State() == ConnectStep(old(State()), rc).next
      ensures events == ConnectStep(old(State()), rc).events
    {
      events := [];
      if rc == 0 {
        phase := Calibrating;
        events := [Connected];
      }
    }

    /** `handle_sensor_data` */
    method HandleSensorData(r: Reading) returns (events: seq<Event>)
      modifies this
      ensures State() == HandleSensorStep(old(State()), r).next
      ensures events == HandleSensorStep(old(State()), r).events
    {
      events := [];
      if phase == Calibrating {
        readingsHr := readingsHr + [r.heartRate];
        readingsTemp := readingsTemp + [r.temperature];
        events := [CalibrationProgress(|readingsHr|)];
        if |readingsHr| >= CalibrationSamples {
          baselineHr := Mean(readingsHr);
          baselineTemp := Mean(readingsTemp);
          phase := Analyzing;
          events := events + [CalibrationComplete(baselineHr, baselineTemp)];
          readingsHr := [];
          readingsTemp := [];
        }
      } else if phase == Analyzing {
        var hrThreshold := baselineHr * HrFactor;
        var tempThreshold := baselineTemp - TempDrop;
        var indicadores: seq<Reason> := [];
        if r.heartRate > hrThreshold {
          indicadores := indicadores + [ElevatedHeartRate(r.heartRate)];
        }
        if r.temperature < tempThreshold {
          indicadores := indicadores + [LowTemperature(r.temperature)];
        }
        var decision := Truthful;
        if |indicadores| > 0 {
          decision := Lying;
        }
        assert indicadores == Reasons(r.heartRate, r.temperature, baselineHr, baselineTemp);
        events := [NewDecision(decision, indicadores, r.heartRate, r.temperature)];
      }
    }
  }

  /** The simulator thread up to its first pair of analysis readings: it
      forces the calibrating phase, feeds the ten calibration readings, then
      one ordinary and one "lying" reading. */
  method DataSimulator() returns (calm: seq<Event>, lie: seq<Event>)
    ensures calm == [NewDecision(Truthful, [], 80.0, 32.0)]
    ensures lie == [NewDecision(Lying, [ElevatedHeartRate(110.0), LowTemperature(31.2)], 110.0, 31.2)]
  {
    var d := new Detector();
    d.phase := Calibrating;
    ghost var start := d.State();
    for i := 0 to CalibrationSamples
      invariant d.State() == Run(start, SimulatedCalibration(i))
    {
      assert SimulatedCalibration(i + 1)[..i] == SimulatedCalibration(i);
      var _ := d.HandleSensorData(SimulatedReading(i));
    }
    SimulatorScenario();
    calm := d.HandleSensorData(Reading(80.0, 32.0));
    lie := d.HandleSensorData(Reading(110.0, 31.2));
  }
}
