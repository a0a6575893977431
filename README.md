# Lie detector back end — Dafny model

The lie detector streams ECG samples and two skin temperatures to a Python
server. The server sets a per-subject baseline and then flags each reading
as "lying" when the heart rate jumps or the temperature drops. This project
models the decision logic of the three server variants and proves
properties about it:

- **`web/app.py`, the production server** (`pipeline.dfy`, module `Pipeline`):
  - `process_ecg_batch` keeps a sliding window of the newest 2000 raw
    samples. It gates the heart-rate estimate, so the rate is 0 while the
    window is short, when no sample is positive, or when the estimator
    fails. It resolves the `-127.0` "probe disconnected" temperature and
    appends valid readings to the history.
  - `handle_sensor_data` is a calibration and decision state machine. It
    collects ten valid readings, freezes their means as the baseline, and
    from then on applies the rule "heart rate above 1.2 × baseline, or
    average temperature below baseline − 0.5 °C, means lying".
  - The module globals are the fields of class `Pipeline.Detector`. Each
    method's new state is tied to a pure step function
    (`HandleSensorStep`), and the lemmas are proved over that function and
    its iteration `Run`.
- **`web/templates/app.py`, the earlier prototype** (`prototype.dfy`, module
  `Prototype`):
  - It has the phases `inactivo` → `calibrando` → `analizando` and the
    `on_mqtt_connect` transition.
  - It counts every reading toward calibration, whatever its heart rate.
  - Its own verdict string is "DICIENDO LA VERDAD".
  - The `data_simulator_thread` scenario is a method that runs the class.
- **`decision.dfy`, module `Decision`**: the threshold rule and the ordered
  list of reasons, shared by both servers.
- **`web/index.py`, the fixed-window HRV monitor**:
  - `hrv.dfy`, module `Hrv`: the pure signal arithmetic. This covers
    `filter_batch`, the guarantees of the peak finder, RR intervals, BPM,
    SDNN, RMSSD and pNN50.
  - `monitor.dfy`, module `Monitor`: `on_message` and
    `calculate_hrv_metrics` as methods of class `Monitor.Monitor`, whose
    fields are the module globals `ecg_filtered`, `calculation_done` and
    `latest_metrics`. The cycle logic (at most one computation per cycle,
    at 30 s, and a restart at 60 s) is proved over the pure step function
    `Receive`.
- **`common.dfy`**: `Option`, `Stat` (a number or NaN), `Sum` and `Mean`.

Foreign library calls become parameters whose types carry only what the
library promises:

- The neurokit2 heart-rate chain is `Pipeline.HrEstimator`. It returns
  either an exception or the number of R peaks and a mean rate that may be
  NaN.
- One scipy `filtfilt` pass is `Hrv.ZeroPhaseStage`. It either preserves
  the length or raises.
- scipy `find_peaks` is `Hrv.PeakFinder`. Its peaks are in range, at least
  166 samples apart and no lower than the mean, and each has a lower sample
  on both sides.

Three consequences of the code that are easy to miss:

- With exactly two peaks, `sdnn` (web/index.py:73) is `np.std` with
  `ddof=1` of a single RR interval, and `rmssd` (web/index.py:74-75) is the
  root of `np.mean` of an empty `diff_rr`. Both are NaN, not 0.
  `Hrv.ComputeHrv` proves that SDNN and RMSSD are NaN exactly in that case.
- Peaks at samples 0, 167 and 333 give exactly 120 bpm in exact arithmetic
  (web/index.py:68-72). This is `Hrv.ExampleBpm`.
- In `filter_batch` (web/index.py:48-51), the notch output is assigned to
  `x` before the low-pass pass runs. So when only the low-pass pass raises,
  the notch-filtered samples are returned. The raw input comes back only
  when the notch pass raises.

## Model

| member | source | states |
|---|---|---|
| `Common.MeanBetween` | web/app.py:146-147 | The mean of `statistics.mean` lies between any lower and upper bound of its readings. |
| `Decision.Reasons` | web/app.py:160-167 | The list has an elevated-heart-rate reason iff hr > 1.2 × baseline and a low-temperature reason iff temp < baseline − 0.5. It has nothing else, and its length is the number of indicators that fired. The heart-rate reason comes first. |
| `Decision.AnyIndicatorSuffices` | web/app.py:163-171 | The reasons list is non-empty iff at least one of the two indicators fired: the rule is an OR. |
| `Decision.ExampleDecisions` | web/app.py:160-171 | With an 80 bpm / 32 °C baseline, (100 bpm, 31 °C) gives both reasons in order and (85 bpm, 32 °C) gives none. |
| `Pipeline.Window` | web/app.py:42-44 | The buffer after extend-and-truncate holds min(2000, n) samples, and they are exactly the last ones of the extended list, in order. |
| `Pipeline.WindowOfWindow` | web/app.py:42-44 | Truncating before appending the next batch loses nothing: the window of (window of a) + b is the window of a + b. |
| `Pipeline.WindowOfSuffix` | web/app.py:42-44 | Dropping leading samples that the window would drop anyway leaves the window unchanged. |
| `Pipeline.WindowStaysFull` | web/app.py:22-23 | Because the window size equals the processing threshold, a buffer that has once reached 2000 samples stays at exactly 2000. |
| `Pipeline.Buffered` | web/app.py:42-44 | Feeding batches one by one, the buffer holds min(2000, n) samples, where n is the number of samples received so far. |
| `Pipeline.BufferedIsNewestSamples` | web/app.py:42-44 | However the stream is split into batches, the buffer holds the newest 2000 samples of the whole stream, in arrival order. |
| `Pipeline.HeartRate` | web/app.py:46-79 | The heart rate is 0 when the window is shorter than 2000, when no sample is positive, or when the estimator raises. A non-zero value is the estimator's non-NaN mean rate, obtained with more than one R peak. Conversely, a full window with a positive sample, for which the estimator finds more than one R peak and a numeric mean rate, yields exactly that rate. |
| `Pipeline.ResolveTemperature` | web/app.py:82-89 | If either probe reads −127.0, the average and both values are 0. Otherwise both values pass through and the average lies midway between them. |
| `Pipeline.Verdict` | web/app.py:169-171 | The decision is "MINTIENDO" iff there is a reason, and "DATOS" otherwise. |
| `Pipeline.HandleSensorStep` | web/app.py:106-183 | A reading with hr ≤ 0, or any reading once calibrated, leaves the state unchanged. A valid reading during calibration either is appended to both accumulators, or (when it is the tenth) sets the baseline to the means of the ten and clears the accumulators. The event list is exact in every case. A reading with hr ≤ 0 emits the invalid status (only before calibration) and then a chart update with bpm 0. A calibrating reading emits the progress i/10 with its own count and a chart update carrying the reading; the tenth then adds the established status with the new baseline. A valid reading once calibrated emits a single decision, and no other call emits one. |
| `Pipeline.StepPreservesConsistency` | web/app.py:128-157 | The two accumulators keep equal lengths, below ten while calibrating and empty once the baseline is set. |
| `Pipeline.InvalidReadingChangesNothing` | web/app.py:116-126 | A reading with hr ≤ 0 leaves the baseline, the flag and the accumulators unchanged and ends with a graph update carrying bpm 0. |
| `Pipeline.DecisionOnceCalibrated` | web/app.py:159-183 | Once calibrated, a valid reading leaves the state unchanged and emits exactly one decision. The decision carries the rule's reasons and the reading's heart rate, average and both temperatures, and its ECG batch. Its string is `Verdict` of those reasons: "MINTIENDO" iff an indicator fired, "DATOS" otherwise. |
| `Pipeline.CalibratesOnTenthValidReading` | web/app.py:129-157 | From the initial state, with fewer than ten valid readings the accumulators hold exactly those readings; from the tenth on, the baseline is the means of the first ten valid readings, the flag is set and the accumulators are empty. |
| `Pipeline.BaselineWithinReadings` | web/app.py:145-148 | Once ten valid readings have arrived, the baseline is set. Its heart rate and temperature lie within any bounds that hold for the first ten valid readings; invalid readings and later readings are unconstrained. |
| `Pipeline.BaselineFrozen` | web/app.py:129-157 | Once the baseline is set, no sequence of readings changes any part of the state. |
| `Pipeline.EstablishedOnTenthValidReading` | web/app.py:145-152 | The "baseline established" status is emitted by exactly the call that brings the tenth valid reading. |
| `Pipeline.Detector.constructor` | web/app.py:17-35 | Empty buffers and histories, no baseline. |
| `Pipeline.Detector.HandleSensorData` | web/app.py:106-183 | The new state and the emitted events are those of the step function; the ECG buffer and the histories are untouched. |
| `Pipeline.Detector.ProcessEcgBatch` | web/app.py:38-103 | The buffer becomes the window of old buffer + batch. Both histories grow by one entry iff the gated heart rate is positive, so they stay equal in length. The state and events follow the step function on the gated heart rate and the resolved temperatures. |
| `Prototype.Verdict` | web/templates/app.py:81-83 | The decision is "MINTIENDO" iff there is a reason, and "DICIENDO LA VERDAD" otherwise. |
| `Prototype.ConnectStep` | web/templates/app.py:26-35 | rc == 0 moves any phase to calibrating and announces it; any other rc changes nothing. |
| `Prototype.HandleSensorStep` | web/templates/app.py:47-92 | Outside calibration the state is unchanged. While calibrating, every reading is appended, and the tenth switches to analysing with the means of the ten as the baseline and empty accumulators. No events are emitted iff the detector is inactive. A calibrating reading emits "sample i/10" with its own count; the tenth also emits the calibration-complete status carrying the new baseline. |
| `Prototype.InactiveIgnoresReadings` | web/templates/app.py:17-92 | Before the connection (the initial phase), a reading changes nothing and emits nothing. |
| `Prototype.AnalyzingDecides` | web/templates/app.py:71-92 | While analysing, the state is unchanged and one decision is emitted, carrying the rule's reasons and the reading's heart rate and temperature. Its string is `Verdict` of those reasons: "DICIENDO LA VERDAD" iff neither indicator fired, "MINTIENDO" otherwise. |
| `Prototype.CalibrationCountsEveryReading` | web/templates/app.py:53-69 | Starting to calibrate with empty accumulators, every reading is accumulated, including those with hr ≤ 0. The tenth switches to analysing with the means of the first ten as the baseline and clears the accumulators; later readings leave the state alone. |
| `Prototype.StepsPreserveConsistency` | web/templates/app.py:26-69 | Both callbacks keep the accumulators equal in length and shorter than ten. |
| `Prototype.SimulatedMeans` | web/templates/app.py:113-115 | The ten simulated calibration readings average 79.5 bpm and 32.05 °C. |
| `Prototype.SimulatorScenario` | web/templates/app.py:104-124 | After the simulated calibration the detector is analysing with baseline (79.5, 32.05). (80, 32.0) gives "DICIENDO LA VERDAD" with no reasons, and (110, 31.2) gives "MINTIENDO" with both reasons. |
| `Prototype.Detector.constructor` | web/templates/app.py:17-22 | Inactive, with empty accumulators and a zero baseline. |
| `Prototype.Detector.OnMqttConnect` | web/templates/app.py:26-35 | The new state and events are those of the connect step. |
| `Prototype.Detector.HandleSensorData` | web/templates/app.py:47-92 | The new state and events are those of the three-phase step function. |
| `Prototype.DataSimulator` | web/templates/app.py:104-124 | Running the class through the simulator's calibration loop and its first analysis pair emits exactly a truthful decision and then a lying one with both reasons. |
| `Hrv.FilterBatch` | web/index.py:43-52 | The output is as long as the input, and [] gives []. If the notch pass raises, the input comes back. If only the low-pass pass raises, the notch output comes back. If neither raises, the output is the low-pass pass applied to the notch output. |
| `Hrv.FlatWindowHasNoPeaks` | web/index.py:61-66 | A constant signal, such as a disconnected electrode, has no peaks, so no metrics are computed. |
| `Hrv.PeakTimesMs` | web/index.py:68 | There is one time per peak. For well-spaced peaks, the times in ms are strictly increasing. |
| `Hrv.Diff` | web/index.py:69-74 | `np.diff` has one element fewer than a non-empty input, and element i is s[i+1] − s[i]. |
| `Hrv.RrIntervals` | web/index.py:68-69 | There are k − 1 RR intervals for k ≥ 1 peaks, and for well-spaced peaks every interval is positive. |
| `Hrv.RrIntervalsFromPeaks` | web/index.py:61-69 | There are k − 1 RR intervals for k peaks, rr[i] = (peaks[i+1] − peaks[i]) · 1000 / 333. With the minimum peak distance, each is at least 166 · 1000 / 333 ms. |
| `Hrv.DiffTelescopes` | web/index.py:69-71 | The successive differences of a list sum to its last element minus its first, so the RR intervals sum to the time between the first and the last peak. |
| `Hrv.MeanRrClosedForm` | web/index.py:68-71 | The mean RR equals (last − first peak) · 1000 / 333 / (k − 1) and is positive. |
| `Hrv.Bpm` | web/index.py:71-72 | The BPM is positive. |
| `Hrv.BpmInvertsMeanRr` | web/index.py:71-72 | BPM times the mean RR interval in ms is 60000, one minute. |
| `Hrv.BpmClosedForm` | web/index.py:71-72 | bpm = 60 · 333 · (k − 1) / (last − first peak), which lies in (0, 60 · 333 / 166]. |
| `Hrv.ExampleBpm` | web/index.py:68-72 | Peaks at 0, 167 and 333 give exactly 120 bpm. |
| `Hrv.SampleVariance` | web/index.py:73 | SDNN² (ddof = 1) is NaN iff there are fewer than two RR intervals, and non-negative otherwise. |
| `Hrv.SampleVarianceOfTwo` | web/index.py:73 | With `ddof=1`, two intervals a and b give SDNN² = (a − b)² / 2: the squared deviations from the midpoint are divided by n − 1 = 1. |
| `Hrv.MeanSquare` | web/index.py:74-75 | RMSSD² is NaN iff `diff_rr` is empty, and non-negative otherwise. |
| `Hrv.Nn50` | web/index.py:76 | NN50 is at most the number of successive differences. It is 0 iff none exceeds 50 ms in absolute value, and equals the count iff all do. |
| `Hrv.Pnn50` | web/index.py:77 | pNN50 lies in [0, 100] and is 0 for an empty list. It is 0 iff no successive difference exceeds 50 ms. |
| `Hrv.ComputeHrv` | web/index.py:57-77 | There are no metrics iff there are fewer than two peaks. Otherwise bpm is in (0, 60 · 333 / 166] and pNN50 in [0, 100]. SDNN² and RMSSD² are NaN iff there are exactly two peaks (pNN50 is then 0) and non-negative otherwise. The bpm is `Bpm` of the peaks (60 · 333 · (k − 1) / (last − first peak) by `BpmClosedForm`). SDNN², RMSSD² and pNN50 are `SampleVariance` of the RR intervals and `MeanSquare` and `Pnn50` of their successive differences. |
| `Monitor.UpdateMetrics` | web/index.py:57-85 | With fewer than two peaks the metrics are untouched. Otherwise the status becomes "Actualizado" and the four statistics are those of the peaks. In both cases the temperatures and the progress are never touched. |
| `Monitor.Progress` | web/index.py:119 | The progress is floor(100 · len / 9990): the largest p with p · 9990 ≤ 100 · len. |
| `Monitor.ProgressIsPercentage` | web/index.py:118-119 | The progress reaches 100 exactly when 9990 samples are buffered. |
| `Monitor.Extended` | web/index.py:115-116 | Extending grows the buffer by the batch length and keeps the old samples as its prefix. |
| `Monitor.NextMetrics` | web/index.py:111-128 | Every message sets both temperatures, defaulting to 0, and the progress from the extended buffer. When the computation is launched and finds at least two peaks in the first 9990 samples, the four HRV entries are exactly `ComputeHrv` of those peaks. Otherwise the four HRV entries keep their old values, including at a reset. The status is "Reiniciando ciclo..." at a reset, otherwise "Actualizado" after a launch with two peaks, and otherwise unchanged. |
| `Monitor.Receive` | web/index.py:105-128 | After any message the buffer is shorter than 60 s: it is either the extended buffer or empty. The flag is set iff there was no reset and it was already set or the computation was launched. A snapshot is handed on iff the computation is launched, and it is the first 9990 samples of the extended buffer. The new HRV entries are `ComputeHrv` of the snapshot's peaks when there are at least two of them, and the old ones otherwise. The rest of the metrics is `NextMetrics`. |
| `Monitor.ReceiveStep` | web/index.py:105-128 | Within a cycle, a message appends its filtered batch. At 19980 samples or more the buffer is emptied and the flag cleared. The cycle invariant (shorter than 60 s, flag set iff at least 9990 samples) is preserved. |
| `Monitor.LaunchedOnCrossing` | web/index.py:121-123 | The computation is launched iff this message takes the buffer across 9990 samples. It receives exactly 9990 samples, beginning with the ones already buffered. |
| `Monitor.AtMostOneLaunchPerCycle` | web/index.py:118-127 | Over any run of messages that stays below 60 s, the computation is launched once if the buffer crosses 9990 samples and never otherwise. |
| `Monitor.RunStaysInCycle` | web/index.py:105-128 | Over any such run, the cycle invariant holds at the end. |
| `Monitor.BufferHoldsCycleSamples` | web/index.py:115-116 | Over any such run, `ecg_filtered` holds exactly the filtered batches received, in arrival order. |
| `Monitor.Monitor.constructor` | web/index.py:23-35 | An empty buffer, the flag unset, and the initial metrics ("Esperando datos...", all zero); the class invariant holds. |
| `Monitor.Monitor.CalculateHrvMetrics` | web/index.py:57-85 | The metrics dictionary becomes `UpdateMetrics` of the old one on the signal's peaks; nothing else changes. |
| `Monitor.Monitor.OnMessage` | web/index.py:105-131 | The new buffer, flag and metrics are those of the step function `Receive`. The class invariant `Valid` (the cycle invariant: buffer shorter than 60 s, flag set iff 9990 samples are buffered) is required and preserved; the constructor establishes it. |

## Left out

- The neurokit2 calls (`ecg_clean`, `ecg_findpeaks`, `signal_rate`) are the parameter `HrEstimator`. Their internals are not modelled.
- scipy's `iirnotch`, `butter` and `filtfilt` are the parameter type `ZeroPhaseStage`, which only guarantees that the length is preserved. The filter coefficients and the filter response are not modelled.
- scipy's `find_peaks` is the parameter type `PeakFinder`, which carries the spacing, height and local-maximum guarantees but not scipy's exact choice among candidate peaks.
- Hrv.SampleVariance: holds the square of SDNN, because Dafny's reals have no square root.
- Hrv.MeanSquare: holds the square of RMSSD, for the same reason.
- Monitor.UpdateMetrics: stores SDNN² and RMSSD² in place of `sdnn` and `rmssd`, for the same reason.
- Monitor.Monitor.CalculateHrvMetrics: stores the same squares, for the same reason.
- Monitor.Progress: is the exact floor of 100 · len / 9990. The code computes `int((len / 9990) * 100)` in IEEE doubles, which can round below the exact value. For example, at len = 22977 the double is 229.99999999999997, so the code stores 229 where the model has 230. Such a length is reachable, because the progress is written before the buffer is reset at 19980 samples.
- Arithmetic is exact over Dafny's `real`, not IEEE floating point. `round(..., 1)` and `round(..., 2)` in the emitted and stored values are not modelled.
- NaN appears only where the code can produce it: the estimator's mean rate, and the statistics with two peaks. Other float edge cases, such as infinities and a NaN sensor value, are not modelled.
- Reasons and status messages are tagged values carrying the observed numbers. The f-string formatting of the text is not modelled.
- MQTT clients, JSON decoding and the try/except wrappers around it are not modelled. `web/app.py`'s `on_mqtt_connect` (web/app.py:186-194) subscribes to the topic and emits a connected status when rc is 0, and only prints otherwise. Its `on_mqtt_message` (web/app.py:196-204) decodes the JSON message and passes the batch and both temperatures to `process_ecg_batch`, which is modelled; a missing field raises and is only printed. The `on_message` payload is a record with optional fields, so a missing field takes the code's default.
- Socket.IO emission is not modelled; emitted messages are returned as event lists. `print` and the Flask routes are not modelled either.
- Threads are not modelled. Monitor.Monitor.OnMessage: runs `calculate_hrv_metrics` synchronously on the 9990-sample snapshot, so a calculation racing with later messages over `latest_metrics` is not modelled.
- Prototype.DataSimulator: models the simulator up to its first pair of analysis readings. The endless loop repeats that pair, and the `time.sleep` pauses and the status emit are not modelled.
- The device firmware and the configuration files (broker address, credentials) are not part of this model.
