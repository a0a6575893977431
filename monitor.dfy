/** The fixed-window monitor (web/index.py): each message's ECG batch is
    filtered and appended to `ecg_filtered`; the HRV statistics are
    computed once per cycle, on the first 30 s of samples, and the cycle
    restarts at 60 s. The HRV computation, which the source runs in a
    thread, is modelled as a synchronous call on the same snapshot. */
module Monitor {
  import opened Common
  import opened Hrv

  const Samples30Sec: nat := Fs * 30
  const Samples60Sec: nat := Fs * 60

  const Waiting: string := "Esperando datos..."
  const Updated: string := "Actualizado"
  const Restarting: string := "Reiniciando ciclo..."

  /** `latest_metrics`. The SDNN and RMSSD entries hold the squares of the
      source's values (the square root is left out). */
  datatype Metrics = Metrics(bpm: real, sdnnSquared: Stat, rmssdSquared: Stat, pnn50: real,
                             temp1: real, temp2: real, status: string, progress: nat)

  const InitialMetrics: Metrics := Metrics(0.0, Num(0.0), Num(0.0), 0.0, 0.0, 0.0, Waiting, 0)

  /** The JSON fields `on_message` reads; a missing field is None. */
  datatype Payload = Payload(datosEcg: Option<seq<real>>, datosTemp1: Option<real>, datosTemp2: Option<real>)

  /** The scipy routines the monitor uses. */
  datatype Dsp = Dsp(notch: ZeroPhaseStage, lowPass: ZeroPhaseStage, findPeaks: PeakFinder)

  /** `latest_metrics` after `calculate_hrv_metrics(signal)`: unchanged with
      fewer than two peaks, otherwise the four statistics and the status
      are replaced and nothing else. */
  function UpdateMetrics(m: Metrics, signal: seq<real>, findPeaks: PeakFinder): (r: Metrics)
    ensures r.temp1 == m.temp1 && r.temp2 == m.temp2 && r.progress == m.progress
    ensures |findPeaks(signal)| < 2 ==> r == m
    ensures |findPeaks(signal)| >= 2 ==>
              && r.status == Updated
              && ComputeHrv(findPeaks(signal)) == Some(HrvMetrics(r.bpm, r.sdnnSquared, r.rmssdSquared, r.pnn50))
              && 0.0 < r.bpm <= MaxBpm && 0.0 <= r.pnn50 <= 100.0
  {
    var peaks := findPeaks(signal);
    match ComputeHrv(peaks)
    case None => m
    case Some(h) =>
      m.(bpm := h.bpm, sdnnSquared := h.sdnnSquared, rmssdSquared := h.rmssdSquared,
         pnn50 := h.pnn50, status := Updated)
  }

  /** `latest_metrics["progress"] = int((current_len / SAMPLES_30_SEC) * 100)` */
  function Progress(len: nat): (p: nat)
    ensures p * Samples30Sec <= 100 * len < p * Samples30Sec + Samples30Sec
  {
    100 * len / Samples30Sec
  }

  /** The progress reaches 100 exactly when 30 s of samples have been
      collected. */
  lemma ProgressIsPercentage(len: nat)
    ensures Progress(len) >= 100 <==> len >= Samples30Sec
  {
  }

  datatype MonitorState = MonitorState(ecgFiltered: seq<real>, calculationDone: bool, metrics: Metrics)

  const Initial: MonitorState := MonitorState([], false, InitialMetrics)

  /** The new state, and the snapshot handed to the HRV computation if one
      was launched. */
  datatype Outcome = Outcome(next: MonitorState, snapshot: Option<seq<real>>)

  function Batch(p: Payload): seq<real> {
    p.datosEcg.GetOr([])
  }

  /** `ecg_filtered.extend(filter_batch(raw_samples))` */
  function Extended(s: MonitorState, p: Payload, dsp: Dsp): (buffer: seq<real>)
    ensures |buffer| == |s.ecgFiltered| + |Batch(p)|
    ensures buffer[..|s.ecgFiltered|] == s.ecgFiltered
  {
    s.ecgFiltered + FilterBatch(Batch(p), dsp.notch, dsp.lowPass)
  }

  /** `current_len >= SAMPLES_30_SEC and not calculation_done` */
  predicate Launched(s: MonitorState, buffer: seq<real>) {
    |buffer| >= Samples30Sec && !s.calculationDone
  }

  /** The four HRV entries of `latest_metrics`. */
  function Statistics(m: Metrics): HrvMetrics {
    HrvMetrics(m.bpm, m.sdnnSquared, m.rmssdSquared, m.pnn50)
  }

  /** `latest_metrics` at the end of `on_message`: the temperatures, then
      the progress, then the HRV statistics of the first 30 s if the
      computation is launched and finds two peaks, then the restart
      status. */
  function NextMetrics(s: MonitorState, p: Payload, dsp: Dsp): (m: Metrics)
    ensures m.temp1 == p.datosTemp1.GetOr(0.0) && m.temp2 == p.datosTemp2.GetOr(0.0)
    ensures m.progress == Progress(|Extended(s, p, dsp)|)
    ensures var buffer := Extended(s, p, dsp);
            Launched(s, buffer) && |dsp.findPeaks(buffer[..Samples30Sec])| >= 2 ==>
              ComputeHrv(dsp.findPeaks(buffer[..Samples30Sec])) == Some(Statistics(m))
    ensures var buffer := Extended(s, p, dsp);
            !Launched(s, buffer) || |dsp.findPeaks(buffer[..Samples30Sec])| < 2 ==>
              Statistics(m) == Statistics(s.metrics)
    ensures var buffer := Extended(s, p, dsp);
            m.status == if |buffer| >= Samples60Sec then Restarting
                        else if Launched(s, buffer) && |dsp.findPeaks(buffer[..Samples30Sec])| >= 2 then Updated
                        else s.metrics.status
  {
    var buffer := Extended(s, p, dsp);
    var m := s.metrics.(temp1 := p.datosTemp1.GetOr(0.0), temp2 := p.datosTemp2.GetOr(0.0),
                        progress := Progress(|buffer|));
    var m' := if Launched(s, buffer) then UpdateMetrics(m, buffer[..Samples30Sec], dsp.findPeaks) else m;
    if |buffer| >= Samples60Sec then m'.(status := Restarting) else m'
  }

  /** One call of `on_message`. */
  function Receive(s: MonitorState, p: Payload, dsp: Dsp): (o: Outcome)
    ensures o.next.metrics == NextMetrics(s, p, dsp)
    ensures |o.next.ecgFiltered| < Samples60Sec
    ensures o.next.ecgFiltered == [] || o.next.ecgFiltered == Extended(s, p, dsp)
    ensures o.next.calculationDone <==> |Extended(s, p, dsp)| < Samples60Sec && (s.calculationDone || o.snapshot.Some?)
    ensures o.snapshot.Some? <==> Launched(s, Extended(s, p, dsp))
    ensures o.snapshot.Some? ==> o.snapshot.value == Extended(s, p, dsp)[..Samples30Sec]
    ensures o.snapshot.Some? && |dsp.findPeaks(o.snapshot.value)| >= 2 ==>
              ComputeHrv(dsp.findPeaks(o.snapshot.value)) == Some(Statistics(o.next.metrics))
    ensures o.snapshot.None? || |dsp.findPeaks(o.snapshot.value)| < 2 ==>
              Statistics(o.next.metrics) == Statistics(s.metrics)
  {
    var buffer := Extended(s, p, dsp);
    var launch := Launched(s, buffer);
    var snapshot := if launch then Some(buffer[..Samples30Sec]) else None;
    if |buffer| >= Samples60Sec then
      Outcome(MonitorState([], false, NextMetrics(s, p, dsp)), snapshot)
    else
      Outcome(MonitorState(buffer, s.calculationDone || launch, NextMetrics(s, p, dsp)), snapshot)
  }

  /** Within a cycle the buffer is shorter than 60 s, and the computation
      has been launched exactly when 30 s have been collected. */
  predicate InCycle(s: MonitorState) {
    |s.ecgFiltered| < Samples60Sec && (s.calculationDone <==> |s.ecgFiltered| >= Samples30Sec)
  }

  /** What one message does to the buffer: it grows by the filtered batch,
      or is emptied once 60 s have been collected, and the cycle invariant
      is kept. */
  lemma ReceiveStep(s: MonitorState, p: Payload, dsp: Dsp)
    requires InCycle(s)
    ensures InCycle(Receive(s, p, dsp).next)
    ensures |s.ecgFiltered| + |Batch(p)| >= Samples60Sec ==> Receive(s, p, dsp).next.ecgFiltered == []
    ensures |s.ecgFiltered| + |Batch(p)| < Samples60Sec ==>
              Receive(s, p, dsp).next.ecgFiltered == s.ecgFiltered + FilterBatch(Batch(p), dsp.notch, dsp.lowPass)
  {
    var buffer := Extended(s, p, dsp);
    if |buffer| < Samples60Sec {
      assert Receive(s, p, dsp).next == MonitorState(buffer, s.calculationDone || Launched(s, buffer), NextMetrics(s, p, dsp));
    }
  }

  /** The computation is launched iff this message crosses the 30 s mark,
      on the first 30 s of samples of the cycle. */
  lemma LaunchedOnCrossing(s: MonitorState, p: Payload, dsp: Dsp)
    requires InCycle(s)
    ensures Receive(s, p, dsp).snapshot.Some?
            <==> |s.ecgFiltered| < Samples30Sec <= |s.ecgFiltered| + |Batch(p)|
    ensures Receive(s, p, dsp).snapshot.Some? ==>
              && |Receive(s, p, dsp).snapshot.value| == Samples30Sec
              && s.ecgFiltered <= Receive(s, p, dsp).snapshot.value
  {
    SnapshotOnCrossing(s.ecgFiltered, s.calculationDone, Extended(s, p, dsp), Receive(s, p, dsp).snapshot);
  }

  /** The buffer and flag facts behind `LaunchedOnCrossing`. */
  lemma SnapshotOnCrossing(buffered: seq<real>, done: bool, buffer: seq<real>, snapshot: Option<seq<real>>)
    requires done <==> |buffered| >= Samples30Sec
    requires |buffered| <= |buffer| && buffer[..|buffered|] == buffered
    requires snapshot.Some? <==> |buffer| >= Samples30Sec && !done
    requires snapshot.Some? ==> snapshot.value == buffer[..Samples30Sec]
    ensures snapshot.Some? <==> |buffered| < Samples30Sec <= |buffer|
    ensures snapshot.Some? ==> |snapshot.value| == Samples30Sec && buffered <= snapshot.value
  {
    if snapshot.Some? {
      assert buffer[..Samples30Sec][..|buffered|] == buffered;
    }
  }

  function TotalSamples(ps: seq<Payload>): nat
    decreases |ps|
  {
    if ps == [] then 0 else |Batch(ps[0])| + TotalSamples(ps[1..])
  }

  /** The computations launched while the messages ps are received. */
  function Launches(s: MonitorState, ps: seq<Payload>, dsp: Dsp): nat
    decreases |ps|
  {
    if ps == [] then 0
    else
      var o := Receive(s, ps[0], dsp);
      (if o.snapshot.Some? then 1 else 0) + Launches(o.next, ps[1..], dsp)
  }

  /** Until the cycle restarts, the HRV computation is launched once if the
      buffer crosses 30 s and never otherwise. */
  lemma {:induction false} AtMostOneLaunchPerCycle(s: MonitorState, ps: seq<Payload>, dsp: Dsp)
    requires InCycle(s)
    requires |s.ecgFiltered| + TotalSamples(ps) < Samples60Sec
    ensures Launches(s, ps, dsp)
            == if |s.ecgFiltered| < Samples30Sec <= |s.ecgFiltered| + TotalSamples(ps) then 1 else 0
    decreases |ps|
  {
    if ps != [] {
      var o := Receive(s, ps[0], dsp);
      ReceiveStep(s, ps[0], dsp);
      LaunchedOnCrossing(s, ps[0], dsp);
      assert |o.next.ecgFiltered| == |s.ecgFiltered| + |Batch(ps[0])|;
      AtMostOneLaunchPerCycle(o.next, ps[1..], dsp);
    }
  }

  /** Before the 60 s mark a message only appends its filtered batch. */
  lemma ReceiveWithinCycle(s: MonitorState, p: Payload, dsp: Dsp)
    requires InCycle(s)
    requires |s.ecgFiltered| + |Batch(p)| < Samples60Sec
    ensures Receive(s, p, dsp).next.ecgFiltered == s.ecgFiltered + FilterBatch(Batch(p), dsp.notch, dsp.lowPass)
    ensures InCycle(Receive(s, p, dsp).next)
  {
    ReceiveStep(s, p, dsp);
  }

  /** The filtered batches of the messages ps, one after the other. */
  function FilteredStream(ps: seq<Payload>, dsp: Dsp): seq<real>
    decreases |ps|
  {
    if ps == [] then [] else FilterBatch(Batch(ps[0]), dsp.notch, dsp.lowPass) + FilteredStream(ps[1..], dsp)
  }

  /** The state after receiving the messages ps in order. */
  function Run(s: MonitorState, ps: seq<Payload>, dsp: Dsp): MonitorState
    decreases |ps|
  {
    if ps == [] then s else Run(Receive(s, ps[0], dsp).next, ps[1..], dsp)
  }

  /** Running from the cycle invariant, before the 60 s mark: the
      invariant is kept and the buffer only grows. */
  lemma {:induction false} RunStaysInCycle(s: MonitorState, ps: seq<Payload>, dsp: Dsp)
    requires InCycle(s)
    requires |s.ecgFiltered| + TotalSamples(ps) < Samples60Sec
    ensures InCycle(Run(s, ps, dsp))
    decreases |ps|
  {
    if ps != [] {
      ReceiveWithinCycle(s, ps[0], dsp);
      RunStaysInCycle(Receive(s, ps[0], dsp).next, ps[1..], dsp);
    }
  }

  /** Until the cycle restarts, `ecg_filtered` holds exactly the filtered
      samples received, in arrival order. */
  lemma {:induction false} BufferHoldsCycleSamples(s: MonitorState, ps: seq<Payload>, dsp: Dsp)
    requires InCycle(s)
    requires |s.ecgFiltered| + TotalSamples(ps) < Samples60Sec
    ensures Run(s, ps, dsp).ecgFiltered == s.ecgFiltered + FilteredStream(ps, dsp)
    decreases |ps|
  {
    if ps == [] {
      assert s.ecgFiltered + [] == s.ecgFiltered;
    } else {
      var next := Receive(s, ps[0], dsp).next;
      ReceiveWithinCycle(s, ps[0], dsp);
      BufferHoldsCycleSamples(next, ps[1..], dsp);
      RunFirst(s, ps, dsp);
      AppendAssoc(s.ecgFiltered, FilterBatch(Batch(ps[0]), dsp.notch, dsp.lowPass), FilteredStream(ps[1..], dsp));
    }
  }

  lemma AppendAssoc(a: seq<real>, b: seq<real>, c: seq<real>)
    ensures a + b + c == a + (b + c)
  {
  }

  lemma RunFirst(s: MonitorState, ps: seq<Payload>, dsp: Dsp)
    requires ps != []
    ensures Run(s, ps, dsp) == Run(Receive(s, ps[0], dsp).next, ps[1..], dsp)
    ensures FilteredStream(ps, dsp) == FilterBatch(Batch(ps[0]), dsp.notch, dsp.lowPass) + FilteredStream(ps[1..], dsp)
  {
  }

  class Monitor {
    /** `ecg_filtered` */
    var ecgFiltered: seq<real>
    /** `calculation_done` */
    var calculationDone: bool
    /** `latest_metrics` */
    var latestMetrics: Metrics

    function State(): MonitorState
      reads this
    {
      MonitorState(ecgFiltered, calculationDone, latestMetrics)
    }

    /** The cycle invariant: the buffer is shorter than 60 s and the flag is
        set iff 30 s of samples have been collected in this cycle. */
    ghost predicate Valid()
      reads this
    {
      InCycle(State())
    }

    constructor ()
      ensures State() == Initial
      ensures Valid()
    {
      ecgFiltered := [];
      calculationDone := false;
      latestMetrics := InitialMetrics;
    }

    /** `calculate_hrv_metrics` */
    method CalculateHrvMetrics(signalData: seq<real>, findPeaks: PeakFinder)
      modifies this`latestMetrics
      ensures latestMetrics == UpdateMetrics(old(latestMetrics), signalData, findPeaks)
    {
      var peaks := findPeaks(signalData);
      if |peaks| < 2 {
        return;
      }
      assert WellSpaced(peaks);
      var peaksTimeMs := PeakTimesMs(peaks);
      var rrIntervals := Diff(peaksTimeMs);
      MeanRrClosedForm(peaks);
      var meanRr := Mean(rrIntervals);
      var bpm := 60000.0 / meanRr;
      var sdnn := SampleVariance(rrIntervals);
      var diffRr := Diff(rrIntervals);
      var rmssd := MeanSquare(diffRr);
      var nn50 := Nn50(diffRr);
      var pnn50 := if |diffRr| > 0 then (nn50 as real / |diffRr| as real) * 100.0 else 0.0;
      assert bpm == Bpm(peaks);
      assert pnn50 == Pnn50(diffRr);
      assert ComputeHrv(peaks) == Some(HrvMetrics(bpm, sdnn, rmssd, pnn50));
      latestMetrics := latestMetrics.(bpm := bpm, sdnnSquared := sdnn, rmssdSquared := rmssd,
                                      pnn50 := pnn50, status := Updated);
    }

    /** `on_message` */
    method OnMessage(payload: Payload, dsp: Dsp)
      requires Valid()
      modifies this
      ensures State() == Receive(old(State()), payload, dsp).next
      ensures Valid()
    {
      ghost var s0 := State();
      var rawSamples := payload.datosEcg.GetOr([]);
      latestMetrics := latestMetrics.(temp1 := payload.datosTemp1.GetOr(0.0));
      latestMetrics := latestMetrics.(temp2 := payload.datosTemp2.GetOr(0.0));

      var cleanSamples := FilterBatch(rawSamples, dsp.notch, dsp.lowPass);
      ecgFiltered := ecgFiltered + cleanSamples;
      assert ecgFiltered == Extended(s0, payload, dsp);

      var currentLen := |ecgFiltered|;
      latestMetrics := latestMetrics.(progress := Progress(currentLen));
      ghost var m := latestMetrics;

      var launch := currentLen >= Samples30Sec && !calculationDone;
      assert launch == Launched(s0, ecgFiltered);
      if launch {
        CalculateHrvMetrics(ecgFiltered[..Samples30Sec], dsp.findPeaks);
        calculationDone := true;
      }
      assert latestMetrics == if launch then UpdateMetrics(m, ecgFiltered[..Samples30Sec], dsp.findPeaks) else m;

      if currentLen >= Samples60Sec {
        ecgFiltered := [];
        calculationDone := false;
        latestMetrics := latestMetrics.(status := Restarting);
      }
      assert latestMetrics == NextMetrics(s0, payload, dsp);
      ReceiveStep(s0, payload, dsp);
    }
  }
}
