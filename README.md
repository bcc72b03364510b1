# aubio onset detector: the per-hop decision and its timing

This project models the onset detector object of aubio (`src/onset/onset.c`).
An onset is the instant a new sound event begins. The detector turns the peak
picker's per-hop decision into reported onsets. It is driven once per hop of
`hop_size` samples and applies three rules to the peak picker's decision `raw`:

- **Silence gating.** A peak on a hop the silence test calls silent is dropped.
- **Debounce.** A peak is accepted only when the hop counter `wasonset` is
  strictly greater than `minioi`. The counter is reset to 0 on acceptance.
- **Stream already sounding.** On the very first hop, flagged by the sentinel
  `wasonset == -1`, a hop with no peak that is not silent forces a synthetic
  onset. It reports `delay div hop_size` and sets `last_onset = delay`.

After the rules, the detector advances the running clock `total_frames` by one
hop. The object also has setters and getters that convert the minimum
inter-onset interval and the delay between milliseconds, seconds, samples and
hops, and that report the last onset time.

The project has three modules:

- `UInt32` (`uint32.dfy`): C's `uint_t` arithmetic, which wraps modulo 2^32.
  It also holds the conversion of a floating-point value to `uint_t`, which
  truncates toward zero.
- `OnsetCore` (`onset_core.dfy`): the per-hop decision as a pure function
  `Step` over the settings (`hopSize`, `minioi`, `delay`) and the counters
  (`wasonset`, `totalFrames`, `lastOnset`). It also has one lemma per branch.
- `OnsetTrace` (`onset_trace.dfy`): runs of `Step` over a sequence of hops,
  with lemmas about what holds along every run:
  - the clock advances by one hop per call;
  - the sentinel fires at most once;
  - two onsets are spaced by at least the debounce interval;
  - a silent stream reports nothing;
  - a worked scenario.
- `Onset` (`onset.dfy`): the class `Detector` with the C struct's fields.
  - `Do` updates the counters in place. Its `ensures` ties the new counters
    and the reported value to `OnsetCore.Step`.
  - The setters are methods with `modifies` clauses.
  - The getters are functions that read the fields.

The collaborators are inputs to `Do`, not code:

- the phase vocoder, the onset-strength function and the peak picker arrive as
  the real `raw`;
- the silence test arrives as the boolean `silent`.

The C code evaluates the silence test at most once per hop, on line 60 or on
line 73, so a single boolean models it.

Behaviour of the code worth knowing, all stated in lemmas:

- `floor(4.3 * 512)` is 2201, so the default delay at 512-sample hops is 2201
  samples, not 2206. An onset at sample 10752 therefore reads back as 8551,
  not 8546 (`SilenceThenPeaks`).
- Two accepted peaks are at least `minioi + 2` hops apart, one more than
  "`minioi + 1` hops elapsed" suggests (`Debounce`). After an acceptance the
  counter is stored as 0 without an increment, and it must exceed `minioi`
  again.
- The synthetic onset leaves the counter at 1, not 0. So a later peak can be
  accepted `minioi + 1` hops after it (`DebounceAfterSynthetic`).
- After the synthetic onset on a fresh detector, `last_onset` is ahead of the
  clock whenever the delay exceeds one hop (`SyntheticAheadOfClock`). So "the last onset is never
  ahead of the clock" holds only for accepted peaks with `raw <= 1`, and only
  while the clock has not wrapped (`AcceptedWithinHop`).
- When `raw <= 0` and the synthetic branch is not taken, the raw value itself
  is written to the output (line 84). It lands there as 0 only because `raw`
  is 0 (`NoPeak`).
- With the default delay, the synthetic onset reports 4 hops
  (`DefaultSyntheticReportsFour`).
- Before any onset, `get_last_onset` computes `0 - delay` in `uint_t`, which
  wraps to `2^32 - delay` (`GetLastOnset`).

## Model

| member | source | states |
|---|---|---|
| `UInt32.Add32` | src/onset/onset.c:86 | `uint_t` addition: the exact sum below 2^32, the sum minus 2^32 from there on |
| `UInt32.Sub32` | src/onset/onset.c:92 | `uint_t` subtraction: the exact difference when it is not negative, otherwise wrapped by 2^32; adding the subtrahend back gives the minuend |
| `UInt32.ToUint` | src/onset/onset.c:66 | float to `uint_t`: in range, the whole part `r` with `r <= x < r + 1`; for `-1 < x < 2^32`, truncation toward zero |
| `OnsetCore.DefaultDelay` | src/onset/onset.c:167 | the default delay, 4.3 hops truncated, lies between 4 and 4.3 hops |
| `OnsetCore.DefaultSyntheticReportsFour` | src/onset/onset.c:76 | with the default delay, `delay / hop_size` (integer division) is 4 |
| `OnsetCore.OnsetFrame` | src/onset/onset.c:66 | the onset's sample index `total_frames + raw * hop_size` is a `uint_t` |
| `OnsetCore.OnsetFrameWithinHop` | src/onset/onset.c:66 | for `0 < raw <= 1` without wrap, the onset's sample index lies within the hop being processed |
| `OnsetCore.Step` | src/onset/onset.c:50-88 | after any hop: the counter is not negative; the clock advanced by one hop modulo 2^32; the output is 0, `raw` or `delay div hop_size`, and is never negative when `raw >= 0`; the output is positive exactly for an accepted peak or a synthetic onset with `delay >= hop_size`; the counter is 0 exactly after an acceptance or a first hop that was not synthetic; `last_onset` changes only on an onset |
| `OnsetCore.SilentPeakSuppressed` | src/onset/onset.c:59-62 | a peak on a silent hop reports 0, increments the counter and keeps `last_onset` |
| `OnsetCore.AcceptedPeak` | src/onset/onset.c:64-66 | an accepted peak reports `raw`, stores counter 0 without an increment, and sets `last_onset` from the clock read before it advances |
| `OnsetCore.DebouncedPeak` | src/onset/onset.c:67-70 | a sounding peak with `wasonset <= minioi` reports 0, increments the counter and keeps `last_onset` |
| `OnsetCore.NoPeak` | src/onset/onset.c:72-84 | with no peak and no synthetic onset, the raw value is written out, the counter increments and `last_onset` is kept |
| `OnsetCore.SyntheticOnset` | src/onset/onset.c:73-80 | the synthetic onset reports `delay div hop_size`, sets `last_onset = delay` (so `get_last_onset` gives 0) and leaves the counter at 1 |
| `OnsetCore.SyntheticAheadOfClock` | src/onset/onset.c:77 | after the synthetic onset on a fresh clock with a delay over one hop, `last_onset` is ahead of `total_frames` |
| `OnsetCore.FirstPeakRejected` | src/onset/onset.c:64 | a peak on the first hop is never accepted (`-1 > minioi` is false); it reports 0 and leaves the counter at 0 |
| `OnsetCore.AcceptedWithinHop` | src/onset/onset.c:66 | for an accepted peak with `raw <= 1` and no wrap, the clock before the hop is at most `last_onset`, which is at most the clock after the hop |
| `OnsetTrace.Trace` | src/onset/onset.c:50-88 | repeated calls: one state per hop plus the final one, all of them well formed |
| `OnsetTrace.TraceStep` | src/onset/onset.c:82-86 | each state of a run is the previous one after one call |
| `OnsetTrace.TraceClock` | src/onset/onset.c:86 | before hop k, `total_frames` is the starting clock plus k hops, modulo 2^32 |
| `OnsetTrace.ClockFromStart` | src/onset/onset.c:172 | from construction, before hop k the clock is exactly `k * hop_size` while it has not wrapped |
| `OnsetTrace.CounterSet` | src/onset/onset.c:82 | after the first hop the stored counter is never negative |
| `OnsetTrace.SyntheticAtMostOnce` | src/onset/onset.c:73 | the synthetic onset fires only on the first hop, and only when the counter started at -1 |
| `OnsetTrace.CounterGrowth` | src/onset/onset.c:80 | once set, the counter grows by at most one per hop |
| `OnsetTrace.Debounce` | src/onset/onset.c:64 | two accepted peaks of a run are at least `minioi + 2` hops apart |
| `OnsetTrace.NoBackToBackOnsets` | src/onset/onset.c:64 | a peak on the hop right after an accepted one is rejected, even with `minioi = 0` |
| `OnsetTrace.DebounceAfterSynthetic` | src/onset/onset.c:78-80 | after a synthetic onset on hop 0, a peak is accepted no earlier than hop `minioi + 1` |
| `OnsetTrace.SilentStream` | src/onset/onset.c:60 | in a stream that is silent throughout with `raw >= 0`: every hop reports 0, no peak and no synthetic onset is taken, and `last_onset` never changes |
| `OnsetTrace.QuietStart` | src/onset/onset.c:171 | a fresh detector fed k silent hops without peaks holds counter `k - 1` and `last_onset` 0 |
| `OnsetTrace.SilenceThenPeaks` | src/onset/onset.c:66 | at 512-sample hops with `minioi = 0`, 20 silent hops and then two sounding peaks at offset 1: the first reports 1 at sample 10752 (8551 after the 2201-sample delay), and the second is rejected |
| `Onset.MinioiHops` | src/onset/onset.c:126 | `set_minioi`: the stored hop count `r` is the floor of `ms * samplerate / (1000 * hop_size)`, stated on integers: `1000 * hop_size * r <= ms * samplerate < 1000 * hop_size * (r + 1)` |
| `Onset.DelayFrames` | src/onset/onset.c:144 | `set_delay_s`: seconds to samples. Read back as seconds, the result is within one sample period below the input |
| `Onset.Detector.constructor` | src/onset/onset.c:165-174 | the defaults: `last_onset` 0, threshold 0.3, delay 4.3 hops truncated, `minioi` 5, silence -70, counter -1, clock 0 |
| `Onset.Detector.Do` | src/onset/onset.c:50-88 | updates only the counter, the clock and `last_onset`, exactly as `OnsetCore.Step` says, and returns its reported value; the clock advances by one hop |
| `Onset.Detector.GetLastOnset` | src/onset/onset.c:90-93 | `last_onset - delay` in `uint_t`: the exact difference when `delay <= last_onset`, else wrapped by 2^32 |
| `Onset.Detector.GetLastOnsetS` | src/onset/onset.c:95-98 | the last onset time in seconds; times the sample rate it gives the frame value |
| `Onset.Detector.GetLastOnsetMs` | src/onset/onset.c:100-103 | as written: the result times the sample rate times 1000 gives the frame value (seconds divided by 1000) |
| `Onset.Detector.GetLastOnsetMsCorrected` | src/onset/onset.c:100-103 | milliseconds as `get_delay_ms` computes them: the result times the sample rate is 1000 times the frame value |
| `Onset.Detector.SetSilence` | src/onset/onset.c:114-117 | stores the silence threshold and returns `AUBIO_OK` |
| `Onset.Detector.SetThreshold` | src/onset/onset.c:119-123 | stores the peak-picking threshold and returns `AUBIO_OK` |
| `Onset.Detector.SetMinioi` | src/onset/onset.c:125-128 | stores `MinioiHops(ms, samplerate, hop_size)`; `get_minioi` then returns that hop count |
| `Onset.Detector.GetMinioi` | src/onset/onset.c:130-132 | returns the interval in hops, not in milliseconds |
| `Onset.Detector.SetDelay` | src/onset/onset.c:134-137 | stores the delay in samples, which `get_delay` then returns |
| `Onset.Detector.GetDelay` | src/onset/onset.c:139-141 | returns the delay in samples |
| `Onset.Detector.SetDelayS` | src/onset/onset.c:143-145 | stores the seconds truncated to samples; in range, `get_delay_s` afterwards is within `1 / samplerate` below the input |
| `Onset.Detector.GetDelayS` | src/onset/onset.c:147-149 | the delay in seconds: times the sample rate it is the delay in samples |
| `Onset.Detector.SetDelayMs` | src/onset/onset.c:151-153 | stores the milliseconds by way of seconds; in range, `get_delay_ms` afterwards is within `1000 / samplerate` below the input |
| `Onset.Detector.GetDelayMs` | src/onset/onset.c:155-157 | the delay in milliseconds: times the sample rate it is 1000 times the delay in samples |
| `Onset.LastOnsetMsDivides` | src/onset/onset.c:102 | one second after the delay, `get_last_onset_ms` returns 0.001 where 1000 is meant |
| `Onset.LastOnsetMsMatchesDelayMs` | src/onset/onset.c:155-157 | the corrected conversion reads an onset one delay after the delay as the delay in milliseconds; the written one does not |

## Findings

| source | as written | input that shows it | evidently intended | confidence | as-written member | corrected member |
|---|---|---|---|---|---|---|
| src/onset/onset.c:102 | `get_last_onset_ms` divides the seconds value by 1000 | `last_onset - delay == samplerate` (one second): returns 0.001 | multiply by 1000, as `get_delay_ms` does on line 156, giving 1000 | high; not executed | `Onset.Detector.GetLastOnsetMs`, shown by `Onset.LastOnsetMsDivides` | `Onset.Detector.GetLastOnsetMsCorrected`, checked against `GetDelayMs` by `Onset.LastOnsetMsMatchesDelayMs` |

## Left out

- The phase vocoder, the onset-strength function and the peak picker (`aubio_pvoc_do`, `aubio_specdesc_do`, `aubio_peakpicker_do`) are not part of this model. They are foreign code, and their combined output for a hop is the parameter `raw` of `Do`.
- `aubio_silence_detection` is not part of this model. Its verdict for a hop is the parameter `silent` of `Do`.
- `aubio_peakpicker_set_threshold` is not part of this model. `SetThreshold` stores the value but does not forward it to the peak picker.
- `aubio_onset_get_descriptor` and `aubio_onset_get_thresholded_descriptor` are left out. They only read the collaborators' buffers.
- Allocation and teardown in `new_aubio_onset` and `del_aubio_onset` are left out: that is memory plumbing. The constructor keeps only the default field values. The `onset_mode` and `buf_size` arguments are dropped because only the collaborators use them.
- Single-precision rounding of `smpl_t` is left out. The model computes in exact reals and writes out every integer truncation. One consequence: `wasonset`, which C stores as a float, is an unbounded integer here and does not stop growing at 2^24.
- Out-of-range float-to-`uint_t` conversions are undefined in C. `ToUint` wraps the truncated value modulo 2^32 there, so the bounds in `MinioiHops` and `DelayFrames` are stated only for in-range values.
- Onset.Detector.constructor: requires a sample rate and a hop size between 1 and 2^32 - 1. C divides by both (lines 76, 126, 148), and the model has no infinities for a zero divisor.
- Onset.Detector.Do: does not model a NaN `raw`, because the model's reals have no NaN.
- OnsetTrace.Debounce: the settings are fixed during a run. A `minioi` changed between hops takes effect on the next hop, which `Do` models but the run lemmas do not cover.
