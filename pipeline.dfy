/** The batch pipeline of the production server (web/app.py): a sliding
    window of raw ECG samples, heart-rate gating, the disconnected-sensor
    temperature rule, the accepted-reading history, and the automatic
    calibration and decision state machine. The module globals of the
    source are the fields of class `Detector`. */
module Pipeline {
  import opened Common
  import opened Decision

  const MaxEcgPoints: nat := 2000
  const MinEcgPointsForProcessing: nat := 2000
  const NumBaselineSamples: nat := 10
  /** Reading of a DS18B20 probe that is not connected. */
  const Disconnected: real := -127.0

  const Lying: string := "MINTIENDO"
  const NotLying: string := "DATOS"

  // ---------------------------------------------------------------------
  // Sliding window of raw samples
  // ---------------------------------------------------------------------

  /** `historico_ecg_raw[-MAX_ECG_POINTS:]` applied when the list is too long:
      the newest `min(MaxEcgPoints, |s|)` samples, in their original order. */
  function Window(s: seq<real>): (w: seq<real>)
    ensures |w| == if |s| > MaxEcgPoints then MaxEcgPoints else |s|
    ensures w == s[|s| - |w|..]
  {
    if |s| > MaxEcgPoints then s[|s| - MaxEcgPoints..] else s
  }

  /** Windowing twice loses nothing: the window of (the window of a) + b is
      the window of a + b. */
  lemma WindowOfWindow(a: seq<real>, b: seq<real>)
    ensures Window(Window(a) + b) == Window(a + b)
  {
    var w := Window(a);
    var k := |a| - |w|;
    assert w + b == (a + b)[k..] by {
      assert a[k..] + b == (a + b)[k..];
    }
    WindowOfSuffix(a + b, k);
  }

  /** Dropping samples that the window would drop anyway does not change it. */
  lemma WindowOfSuffix(y: seq<real>, k: nat)
    requires k <= |y|
    requires k > 0 ==> |y| - k >= MaxEcgPoints
    ensures Window(y[k..]) == Window(y)
  {
    var x := y[k..];
    if |x| > MaxEcgPoints {
      var i := |x| - MaxEcgPoints;
      assert x[i..] == y[k + i..];
    } else if k > 0 {
      assert |y| - k == MaxEcgPoints;
    }
  }

  /** Since the window is as long as the processing threshold, a buffer that
      has once been long enough for processing stays exactly that long. */
  lemma WindowStaysFull(a: seq<real>, b: seq<real>)
    requires |a| >= MinEcgPointsForProcessing
    ensures |Window(a + b)| == MaxEcgPoints == MinEcgPointsForProcessing
  {
  }

  /** The buffer after feeding batches one by one to an empty buffer. */
  function Buffered(batches: seq<seq<real>>): (b: seq<real>)
    ensures |b| == if |Concat(batches)| < MaxEcgPoints then |Concat(batches)| else MaxEcgPoints
    decreases |batches|
  {
    if batches == [] then [] else Window(Buffered(batches[..|batches| - 1]) + batches[|batches| - 1])
  }

  function Concat(batches: seq<seq<real>>): seq<real>
    decreases |batches|
  {
    if batches == [] then [] else Concat(batches[..|batches| - 1]) + batches[|batches| - 1]
  }

  /** However batches arrive, the buffer holds the newest MaxEcgPoints
      samples of the whole stream, in the order they arrived. */
  lemma {:induction false} BufferedIsNewestSamples(batches: seq<seq<real>>)
    ensures Buffered(batches) == Window(Concat(batches))
  {
    if batches != [] {
      var prefix := batches[..|batches| - 1];
      BufferedIsNewestSamples(prefix);
      WindowOfWindow(Concat(prefix), batches[|batches| - 1]);
    }
  }

  // ---------------------------------------------------------------------
  // Heart rate and temperatures of one batch
  // ---------------------------------------------------------------------

  /** What the neurokit chain (`ecg_clean`, `ecg_findpeaks`,
      `signal_rate(...).mean()`) yields on a window: an exception, or the
      number of R peaks and the mean rate (which may be NaN). */
  datatype RPeakOutcome = Raised | Detected(rPeaks: nat, meanRate: Stat)

  type HrEstimator = seq<real> -> RPeakOutcome

  predicate AnyPositive(s: seq<real>) {
    exists i :: 0 <= i < |s| && s[i] > 0.0
  }

  /** `current_hr` as computed from the window. */
  function HeartRate(window: seq<real>, estimate: HrEstimator): (hr: real)
    ensures |window| < MinEcgPointsForProcessing ==> hr == 0.0
    ensures !AnyPositive(window) ==> hr == 0.0
    ensures estimate(window).Raised? ==> hr == 0.0
    ensures && |window| >= MinEcgPointsForProcessing && AnyPositive(window)
            && estimate(window).Detected? && estimate(window).rPeaks > 1 && estimate(window).meanRate.Num?
            ==> hr == estimate(window).meanRate.value
    ensures hr != 0.0 ==> estimate(window).Detected? && estimate(window).rPeaks > 1
                          && estimate(window).meanRate == Num(hr)
  {
    if |window| < MinEcgPointsForProcessing then 0.0
    else if !AnyPositive(window) then 0.0
    else match estimate(window)
      case Raised => 0.0
      case Detected(n, rate) =>
        if n > 1 then (match rate case Num(v) => v case NaN => 0.0) else 0.0
  }

  datatype Temperatures = Temperatures(avg: real, temp1: real, temp2: real)

  /** `current_temp_avg`, `temp1_val`, `temp2_val`. */
  function ResolveTemperature(temp1: real, temp2: real): (t: Temperatures)
    ensures temp1 == Disconnected || temp2 == Disconnected ==> t == Temperatures(0.0, 0.0, 0.0)
    ensures temp1 != Disconnected && temp2 != Disconnected ==>
              && t.temp1 == temp1 && t.temp2 == temp2
              && t.avg - temp1 == temp2 - t.avg
              && (temp1 <= t.avg <= temp2 || temp2 <= t.avg <= temp1)
  {
    if temp1 == Disconnected || temp2 == Disconnected then Temperatures(0.0, 0.0, 0.0)
    else Temperatures((temp1 + temp2) / 2.0, temp1, temp2)
  }

  // ---------------------------------------------------------------------
  // Calibration and decision (handle_sensor_data)
  // ---------------------------------------------------------------------

  /** The dictionary handed to `handle_sensor_data`. */
  datatype SensorData = SensorData(heartRate: real, temperatureAvg: real, temp1: real, temp2: real, ecgRaw: seq<real>)

  datatype Status =
    | InvalidReading                          // "Lectura no válida. Ajuste electrodos o espere..."
    | CalibrationProgress(collected: nat)     // "Calculando línea base... i/10"
    | BaselineEstablished(hr: real, temp: real)

  /** The Socket.IO emissions of `handle_sensor_data` (rounding left out). */
  datatype Event =
    | UpdateStatus(status: Status)
    | SensorDataUpdate(ecgData: seq<real>, temp1: real, temp2: real, bpm: real)
    | NewDecision(decision: string, reasons: seq<Reason>, hr: real, tempAvg: real,
                  temp1: real, temp2: real, ecgData: seq<real>)

  datatype BaselineState = BaselineState(baselineHr: real, baselineTemp: real, baselineSet: bool,
                                         readingsHr: seq<real>, readingsTemp: seq<real>)

  const Initial: BaselineState := BaselineState(0.0, 0.0, false, [], [])

  datatype Step = Step(next: BaselineState, events: seq<Event>)

  /** `decision = "DATOS"; if indicadores: decision = "MINTIENDO"` */
  function Verdict(reasons: seq<Reason>): (v: string)
    ensures v == Lying <==> |reasons| > 0
    ensures v == Lying || v == NotLying
  {
    if |reasons| > 0 then Lying else NotLying
  }

  /** One call of `handle_sensor_data` on a state: only a valid reading
      before calibration changes the state, the tenth freezing the means as
      baseline; a decision is emitted exactly for a valid reading once
      calibrated. */
  function HandleSensorStep(s: BaselineState, d: SensorData): (st: Step)
    ensures d.heartRate <= 0.0 || s.baselineSet ==> st.next == s
    ensures d.heartRate > 0.0 && !s.baselineSet ==>
              (st.next.baselineSet <==> |s.readingsHr| + 1 >= NumBaselineSamples)
    ensures d.heartRate > 0.0 && !s.baselineSet && st.next.baselineSet ==>
              st.next == BaselineState(Mean(s.readingsHr + [d.heartRate]),
                                       Mean(s.readingsTemp + [d.temperatureAvg]), true, [], [])
    ensures d.heartRate > 0.0 && !s.baselineSet && !st.next.baselineSet ==>
              st.next == s.(readingsHr := s.readingsHr + [d.heartRate],
                            readingsTemp := s.readingsTemp + [d.temperatureAvg])
    ensures |st.events| >= 1
    ensures forall i :: 0 <= i < |st.events| ==>
              (st.events[i].NewDecision? <==> i == 0 && s.baselineSet && d.heartRate > 0.0)
    ensures d.heartRate <= 0.0 ==> (UpdateStatus(InvalidReading) in st.events <==> !s.baselineSet)
    ensures d.heartRate <= 0.0 ==> st.events[|st.events| - 1] == SensorDataUpdate(d.ecgRaw, d.temp1, d.temp2, 0.0)
    ensures d.heartRate <= 0.0 ==> |st.events| == if s.baselineSet then 1 else 2
    ensures d.heartRate > 0.0 && !s.baselineSet ==> |st.events| == if st.next.baselineSet then 3 else 2
    ensures d.heartRate > 0.0 && s.baselineSet ==> |st.events| == 1
    ensures d.heartRate > 0.0 && !s.baselineSet ==>
              && |st.events| >= 2
              && st.events[0] == UpdateStatus(CalibrationProgress(|s.readingsHr| + 1))
              && st.events[1] == SensorDataUpdate(d.ecgRaw, d.temp1, d.temp2, d.heartRate)
              && (|st.events| == 3 <==> st.next.baselineSet)
    ensures !s.baselineSet && st.next.baselineSet ==>
              st.events[|st.events| - 1] == UpdateStatus(BaselineEstablished(st.next.baselineHr, st.next.baselineTemp))
  {
    if d.heartRate <= 0.0 then
      Step(s, (if s.baselineSet then [] else [UpdateStatus(InvalidReading)])
              + [SensorDataUpdate(d.ecgRaw, d.temp1, d.temp2, 0.0)])
    else if !s.baselineSet then
      var hrs := s.readingsHr + [d.heartRate];
      var temps := s.readingsTemp + [d.temperatureAvg];
      var progress := [UpdateStatus(CalibrationProgress(|hrs|)),
                       SensorDataUpdate(d.ecgRaw, d.temp1, d.temp2, d.heartRate)];
      if |hrs| >= NumBaselineSamples then
        Step(BaselineState(Mean(hrs), Mean(temps), true, [], []),
             progress + [UpdateStatus(BaselineEstablished(Mean(hrs), Mean(temps)))])
      else
        Step(s.(readingsHr := hrs, readingsTemp := temps), progress)
    else
      var reasons := Reasons(d.heartRate, d.temperatureAvg, s.baselineHr, s.baselineTemp);
      Step(s, [NewDecision(Verdict(reasons), reasons, d.heartRate, d.temperatureAvg, d.temp1, d.temp2, d.ecgRaw)])
  }

  /** The accumulators run in parallel and stay below the calibration
      count until the baseline is frozen, after which they are empty. */
  predicate Consistent(s: BaselineState) {
    && |s.readingsHr| == |s.readingsTemp|
    && (if s.baselineSet then s.readingsHr == [] else |s.readingsHr| < NumBaselineSamples)
  }

  lemma StepPreservesConsistency(s: BaselineState, d: SensorData)
    requires Consistent(s)
    ensures Consistent(HandleSensorStep(s, d).next)
  {
  }

  /** A reading with no usable heart rate changes neither baseline nor accumulators. */
  lemma InvalidReadingChangesNothing(s: BaselineState, d: SensorData)
    requires d.heartRate <= 0.0
    ensures HandleSensorStep(s, d).next == s
    ensures HandleSensorStep(s, d).events[|HandleSensorStep(s, d).events| - 1]
            == SensorDataUpdate(d.ecgRaw, d.temp1, d.temp2, 0.0)
  {
  }

  /** Once calibrated, a valid reading yields exactly one decision, which
      is "MINTIENDO" iff an indicator fired. */
  lemma DecisionOnceCalibrated(s: BaselineState, d: SensorData)
    requires s.baselineSet && d.heartRate > 0.0
    ensures var st := HandleSensorStep(s, d);
      && st.next == s
      && |st.events| == 1 && st.events[0].NewDecision?
      && st.events[0].reasons == Reasons(d.heartRate, d.temperatureAvg, s.baselineHr, s.baselineTemp)
      && st.events[0].hr == d.heartRate && st.events[0].tempAvg == d.temperatureAvg
      && st.events[0].temp1 == d.temp1 && st.events[0].temp2 == d.temp2
      && st.events[0].ecgData == d.ecgRaw
      && st.events[0].decision == Verdict(st.events[0].reasons)
      && (st.events[0].decision == Lying
          <==> HrElevated(d.heartRate, s.baselineHr) || TempLow(d.temperatureAvg, s.baselineTemp))
  {
    AnyIndicatorSuffices(d.heartRate, d.temperatureAvg, s.baselineHr, s.baselineTemp);
  }

  /** The state after a sequence of calls. */
  function Run(s: BaselineState, ds: seq<SensorData>): BaselineState
    decreases |ds|
  {
    if ds == [] then s else HandleSensorStep(Run(s, ds[..|ds| - 1]), ds[|ds| - 1]).next
  }

  /** The readings with a positive heart rate, in arrival order. */
  function ValidReadings(ds: seq<SensorData>): (v: seq<SensorData>)
    ensures |v| <= |ds|
    ensures forall i :: 0 <= i < |v| ==> v[i].heartRate > 0.0 && v[i] in ds
    decreases |ds|
  {
    if ds == [] then []
    else ValidReadings(ds[..|ds| - 1]) + (if ds[|ds| - 1].heartRate > 0.0 then [ds[|ds| - 1]] else [])
  }

  function HeartRates(v: seq<SensorData>): (r: seq<real>)
    ensures |r| == |v|
  {
    seq(|v|, i requires 0 <= i < |v| => v[i].heartRate)
  }

  function AverageTemperatures(v: seq<SensorData>): (r: seq<real>)
    ensures |r| == |v|
  {
    seq(|v|, i requires 0 <= i < |v| => v[i].temperatureAvg)
  }

  /** Calibration from the initial state: with fewer than ten valid readings
      the accumulators hold exactly those readings and no baseline is set;
      from the tenth valid reading on, the baseline is frozen at the means of
      the first ten and the accumulators are empty. */
  lemma {:induction false} CalibratesOnTenthValidReading(ds: seq<SensorData>)
    ensures var s := Run(Initial, ds);
            var v := ValidReadings(ds);
            if |v| < NumBaselineSamples then
              s == BaselineState(0.0, 0.0, false, HeartRates(v), AverageTemperatures(v))
            else
              s == BaselineState(Mean(HeartRates(v[..NumBaselineSamples])),
                                 Mean(AverageTemperatures(v[..NumBaselineSamples])), true, [], [])
    decreases |ds|
  {
    if ds != [] {
      var p, d := ds[..|ds| - 1], ds[|ds| - 1];
      CalibratesOnTenthValidReading(p);
      var vp, v := ValidReadings(p), ValidReadings(ds);
      assert v == vp + (if d.heartRate > 0.0 then [d] else []);
      if |vp| < NumBaselineSamples {
        if d.heartRate > 0.0 {
          assert HeartRates(v) == HeartRates(vp) + [d.heartRate];
          assert AverageTemperatures(v) == AverageTemperatures(vp) + [d.temperatureAvg];
          if |v| == NumBaselineSamples {
            assert v[..NumBaselineSamples] == v;
          }
        }
      } else {
        assert v[..NumBaselineSamples] == vp[..NumBaselineSamples];
      }
    }
  }

  /** The baseline lies within the range of the readings it was
      calibrated from. */
  lemma BaselineWithinReadings(ds: seq<SensorData>, hrLo: real, hrHi: real, tempLo: real, tempHi: real)
    requires |ValidReadings(ds)| >= NumBaselineSamples
    requires forall i :: 0 <= i < NumBaselineSamples ==> hrLo <= ValidReadings(ds)[i].heartRate <= hrHi
    requires forall i :: 0 <= i < NumBaselineSamples ==> tempLo <= ValidReadings(ds)[i].temperatureAvg <= tempHi
    ensures Run(Initial, ds).baselineSet
    ensures hrLo <= Run(Initial, ds).baselineHr <= hrHi
    ensures tempLo <= Run(Initial, ds).baselineTemp <= tempHi
  {
    CalibratesOnTenthValidReading(ds);
    var first := ValidReadings(ds)[..NumBaselineSamples];
    MeanBetween(HeartRates(first), hrLo, hrHi);
    MeanBetween(AverageTemperatures(first), tempLo, tempHi);
  }

  /** Once set, the baseline never changes, whatever readings follow. */
  lemma {:induction false} BaselineFrozen(s: BaselineState, ds: seq<SensorData>)
    requires s.baselineSet
    ensures Run(s, ds) == s
    decreases |ds|
  {
    if ds != [] {
      BaselineFrozen(s, ds[..|ds| - 1]);
    }
  }

  /** The "baseline established" status is emitted by exactly the call that
      brings the tenth valid reading. */
  lemma EstablishedOnTenthValidReading(ds: seq<SensorData>, d: SensorData)
    ensures var evs := HandleSensorStep(Run(Initial, ds), d).events;
            (exists i :: 0 <= i < |evs| && evs[i].UpdateStatus? && evs[i].status.BaselineEstablished?)
            <==> d.heartRate > 0.0 && |ValidReadings(ds)| == NumBaselineSamples - 1
  {
    CalibratesOnTenthValidReading(ds);
    var s := Run(Initial, ds);
    var evs := HandleSensorStep(s, d).events;
    if d.heartRate > 0.0 && !s.baselineSet && |s.readingsHr| + 1 >= NumBaselineSamples {
      assert evs[2].UpdateStatus? && evs[2].status.BaselineEstablished?;
    }
  }

  // ---------------------------------------------------------------------
  // The server state
  // ---------------------------------------------------------------------

  class Detector {
    /** `historico_ecg_raw` */
    var ecgRaw: seq<real>
    /** `historico_bpm`, `historico_temp` */
    var bpmHistory: seq<real>
    var tempHistory: seq<real>
    var baselineHr: real
    var baselineTemp: real
    var baselineSet: bool
    /** `baseline_readings_hr`, `baseline_readings_temp` */
    var readingsHr: seq<real>
    var readingsTemp: seq<real>

    function State(): BaselineState
      reads this
    {
      BaselineState(baselineHr, baselineTemp, baselineSet, readingsHr, readingsTemp)
    }

    ghost predicate Valid()
      reads this
    {
      |ecgRaw| <= MaxEcgPoints && |bpmHistory| == |tempHistory| && Consistent(State())
    }

    constructor ()
      ensures Valid() && State() == Initial
      ensures ecgRaw == [] && bpmHistory == [] && tempHistory == []
    {
      ecgRaw, bpmHistory, tempHistory := [], [], [];
      baselineHr, baselineTemp, baselineSet := 0.0, 0.0, false;
      readingsHr, readingsTemp := [], [];
    }

    /** `handle_sensor_data` */
    method HandleSensorData(data: SensorData) returns (events: seq<Event>)
      modifies this
      ensures State() == HandleSensorStep(old(State()), data).next
      ensures events == HandleSensorStep(old(State()), data).events
      ensures ecgRaw == old(ecgRaw) && bpmHistory == old(bpmHistory) && tempHistory == old(tempHistory)
    {
      if data.heartRate <= 0.0 {
        events := [];
        if !baselineSet {
          events := events + [UpdateStatus(InvalidReading)];
        }
        events := events + [SensorDataUpdate(data.ecgRaw, data.temp1, data.temp2, 0.0)];
        assert events == HandleSensorStep(old(State()), data).events;
        return;
      }

      if !baselineSet {
        readingsHr := readingsHr + [data.heartRate];
        readingsTemp := readingsTemp + [data.temperatureAvg];
        events := [UpdateStatus(CalibrationProgress(|readingsHr|)),
                   SensorDataUpdate(data.ecgRaw, data.temp1, data.temp2, data.heartRate)];
        if |readingsHr| >= NumBaselineSamples {
          baselineHr := Mean(readingsHr);
          baselineTemp := Mean(readingsTemp);
          baselineSet := true;
          events := events + [UpdateStatus(BaselineEstablished(baselineHr, baselineTemp))];
          readingsHr := [];
          readingsTemp := [];
        }
        return;
      }

      var hrThreshold := baselineHr * HrFactor;
      var tempThreshold := baselineTemp - TempDrop;
      var indicadores: seq<Reason> := [];
      if data.heartRate > hrThreshold {
        indicadores := indicadores + [ElevatedHeartRate(data.heartRate)];
      }
      if data.temperatureAvg < tempThreshold {
        indicadores := indicadores + [LowTemperature(data.temperatureAvg)];
      }
      var decision := NotLying;
      if |indicadores| > 0 {
        decision := Lying;
      }
      assert indicadores == Reasons(data.heartRate, data.temperatureAvg, baselineHr, baselineTemp);
      events := [NewDecision(decision, indicadores, data.heartRate, data.temperatureAvg,
                             data.temp1, data.temp2, data.ecgRaw)];
    }

    /** `process_ecg_batch` */
    method ProcessEcgBatch(ecgRawData: seq<real>, temp1: real, temp2: real, estimate: HrEstimator)
      returns (events: seq<Event>)
      requires Valid()
      modifies this
      ensures Valid()
      ensures ecgRaw == Window(old(ecgRaw) + ecgRawData)
      ensures var hr := HeartRate(ecgRaw, estimate);
              var t := ResolveTemperature(temp1, temp2);
              var st := HandleSensorStep(old(State()), SensorData(hr, t.avg, t.temp1, t.temp2, ecgRawData));
              && bpmHistory == old(bpmHistory) + (if hr > 0.0 then [hr] else [])
              && tempHistory == old(tempHistory) + (if hr > 0.0 then [t.avg] else [])
              && State() == st.next
              && events == st.events
    {
      ghost var s0 := State();
      ecgRaw := ecgRaw + ecgRawData;
      if |ecgRaw| > MaxEcgPoints {
        ecgRaw := ecgRaw[|ecgRaw| - MaxEcgPoints..];
      }
      assert ecgRaw == Window(old(ecgRaw) + ecgRawData);

      var currentHr := HeartRate(ecgRaw, estimate);
      var t := ResolveTemperature(temp1, temp2);
      var currentTempAvg, temp1Val, temp2Val := t.avg, t.temp1, t.temp2;

      if currentHr > 0.0 {
        bpmHistory := bpmHistory + [currentHr];
        tempHistory := tempHistory + [currentTempAvg];
      }

      var data := SensorData(currentHr, currentTempAvg, temp1Val, temp2Val, ecgRawData);
      assert State() == s0;
      StepPreservesConsistency(s0, data);
      events := HandleSensorData(data);
    }
  }
}
