// The per-hop onset decision of src/onset/onset.c as a pure state machine:
// silence gating, the minimum inter-onset debounce and the synthetic onset
// for a stream that is already sounding, over the detector's counters.
module OnsetCore {
  import opened UInt32

  /** What the decision reads from the detector's configuration. */
  datatype Settings = Settings(
    hopSize: nat,   // samples between two hops, fixed at construction
    minioi: nat,    // minimum inter-onset interval, in hops
    delay: nat)     // latency removed from onset times, in samples

  /**
   * What the decision updates.  `wasonset` counts hops since the last onset
   * and starts at the sentinel -1 (no hop seen yet); `totalFrames` is the
   * running clock in samples; `lastOnset` the sample index of the latest
   * onset, before the delay is removed.
   */
  datatype State = State(wasonset: int, totalFrames: nat, lastOnset: nat)

  /** One hop's inputs: the peak picker's decision and the silence verdict. */
  datatype Input = Input(raw: real, silent: bool)

  /** The state after a hop and the value written to the output slot. */
  datatype Hop = Hop(next: State, reported: real)

  predicate ValidSettings(p: Settings)
  {
    0 < p.hopSize < U32 && IsUint(p.minioi) && IsUint(p.delay)
  }

  predicate ValidState(s: State)
  {
    s.wasonset >= -1 && IsUint(s.totalFrames) && IsUint(s.lastOnset)
  }

  const DefaultMinioi: nat := 5
  const DefaultThreshold: real := 0.3
  const DefaultSilence: real := -70.0

  /** The default delay, 4.3 hops truncated to whole samples. */
  function DefaultDelay(hopSize: nat): (d: nat)
    ensures IsUint(d)
    ensures 43 * hopSize < 10 * U32 ==> 40 * hopSize <= 10 * d <= 43 * hopSize
  {
    ToUint(4.3 * hopSize as real)
  }

  function DefaultSettings(hopSize: nat): Settings
  {
    Settings(hopSize, DefaultMinioi, DefaultDelay(hopSize))
  }

  /** The counters of a freshly constructed detector. */
  const Initial: State := State(-1, 0, 0)

  /** A peak the detector reports: not silent and far enough from the previous onset. */
  predicate Accepted(p: Settings, s: State, i: Input)
  {
    i.raw > 0.0 && !i.silent && s.wasonset > p.minioi
  }

  /** The onset forced on the first hop when the stream starts already sounding. */
  predicate Synthetic(p: Settings, s: State, i: Input)
  {
    i.raw <= 0.0 && !i.silent && s.wasonset == -1
  }

  /**
   * The sample index of a peak found `raw` hops into the hop that starts at
   * sample `totalFrames`, converted to uint_t.
   */
  function OnsetFrame(totalFrames: nat, raw: real, hopSize: nat): (r: nat)
    ensures IsUint(r)
  {
    ToUint(totalFrames as real + raw * (hopSize as real))
  }

  /** One call of the per-hop decision. */
  function Step(p: Settings, s: State, i: Input): (h: Hop)
    requires ValidSettings(p) && ValidState(s)
    ensures ValidState(h.next) && h.next.wasonset >= 0
    ensures h.next.totalFrames == Add32(s.totalFrames, p.hopSize)
    ensures h.reported == 0.0 || h.reported == i.raw || h.reported == (p.delay / p.hopSize) as real
    ensures i.raw >= 0.0 ==> h.reported >= 0.0
    ensures h.reported > 0.0 <==> Accepted(p, s, i) || (Synthetic(p, s, i) && p.delay >= p.hopSize)
    ensures h.next.wasonset == 0 <==> Accepted(p, s, i) || (s.wasonset == -1 && !Synthetic(p, s, i))
    ensures h.next.lastOnset != s.lastOnset ==> Accepted(p, s, i) || Synthetic(p, s, i)
  {
    var clock := Add32(s.totalFrames, p.hopSize);
    if i.raw > 0.0 then
      if i.silent then
        Hop(State(s.wasonset + 1, clock, s.lastOnset), 0.0)
      else if s.wasonset > p.minioi then
        Hop(State(0, clock, OnsetFrame(s.totalFrames, i.raw, p.hopSize)), i.raw)
      else
        Hop(State(s.wasonset + 1, clock, s.lastOnset), 0.0)
    else if s.wasonset == -1 && !i.silent then
      Hop(State(1, clock, p.delay), (p.delay / p.hopSize) as real)
    else
      Hop(State(s.wasonset + 1, clock, s.lastOnset), i.raw)
  }

  // ---------------------------------------------------------------------
  // One hop, case by case

  /** A peak on a silent hop is dropped; the counter still advances. */
  lemma SilentPeakSuppressed(p: Settings, s: State, i: Input)
    requires ValidSettings(p) && ValidState(s)
    requires i.raw > 0.0 && i.silent
    ensures Step(p, s, i).reported == 0.0
    ensures Step(p, s, i).next.wasonset == s.wasonset + 1
    ensures Step(p, s, i).next.lastOnset == s.lastOnset
  {
  }

  /** An accepted peak resets the counter and records its sub-hop position. */
  lemma AcceptedPeak(p: Settings, s: State, i: Input)
    requires ValidSettings(p) && ValidState(s)
    requires Accepted(p, s, i)
    ensures Step(p, s, i).reported == i.raw
    ensures Step(p, s, i).next.wasonset == 0
    ensures Step(p, s, i).next.lastOnset == OnsetFrame(s.totalFrames, i.raw, p.hopSize)
  {
  }

  /** A non-silent peak too close to the previous onset is dropped. */
  lemma DebouncedPeak(p: Settings, s: State, i: Input)
    requires ValidSettings(p) && ValidState(s)
    requires i.raw > 0.0 && !i.silent && s.wasonset <= p.minioi
    ensures Step(p, s, i).reported == 0.0
    ensures Step(p, s, i).next.wasonset == s.wasonset + 1
    ensures Step(p, s, i).next.lastOnset == s.lastOnset
  {
  }

  /** Without a peak and outside the first hop, the raw value is passed through. */
  lemma NoPeak(p: Settings, s: State, i: Input)
    requires ValidSettings(p) && ValidState(s)
    requires i.raw <= 0.0 && !Synthetic(p, s, i)
    ensures Step(p, s, i).reported == i.raw
    ensures Step(p, s, i).next.wasonset == s.wasonset + 1
    ensures Step(p, s, i).next.lastOnset == s.lastOnset
  {
  }

  /**
   * The synthetic onset reports the delay in whole hops, places the last
   * onset at the delay (so its delay-compensated time is 0) and leaves the
   * counter at 1.
   */
  lemma SyntheticOnset(p: Settings, s: State, i: Input)
    requires ValidSettings(p) && ValidState(s)
    requires Synthetic(p, s, i)
    ensures Step(p, s, i).reported == (p.delay / p.hopSize) as real
    ensures Step(p, s, i).next.lastOnset == p.delay
    ensures Sub32(Step(p, s, i).next.lastOnset, p.delay) == 0
    ensures Step(p, s, i).next.wasonset == 1
  {
  }

  /**
   * The synthetic onset on the first hop of a fresh detector places the
   * last onset ahead of the clock whenever the delay exceeds one hop, as
   * the default delay of 4.3 hops does.
   */
  lemma SyntheticAheadOfClock(p: Settings, s: State, i: Input)
    requires ValidSettings(p) && ValidState(s)
    requires Synthetic(p, s, i) && s.totalFrames == 0 && p.delay > p.hopSize
    ensures Step(p, s, i).next.lastOnset > Step(p, s, i).next.totalFrames
  {
  }

  /** On the first hop a peak is never accepted, since -1 > minioi is false. */
  lemma FirstPeakRejected(p: Settings, s: State, i: Input)
    requires ValidSettings(p) && ValidState(s)
    requires s.wasonset == -1 && i.raw > 0.0
    ensures !Accepted(p, s, i)
    ensures Step(p, s, i).reported == 0.0 && Step(p, s, i).next.wasonset == 0
  {
  }

  /**
   * An accepted peak with a sub-hop offset of at most one hop lies inside
   * the hop just processed, when the clock does not wrap.
   */
  lemma AcceptedWithinHop(p: Settings, s: State, i: Input)
    requires ValidSettings(p) && ValidState(s)
    requires Accepted(p, s, i) && i.raw <= 1.0 && s.totalFrames + p.hopSize < U32
    ensures s.totalFrames <= Step(p, s, i).next.lastOnset <= Step(p, s, i).next.totalFrames
  {
    AcceptedPeak(p, s, i);
    OnsetFrameWithinHop(s.totalFrames, i.raw, p.hopSize);
  }

  lemma OnsetFrameWithinHop(totalFrames: nat, raw: real, hopSize: nat)
    requires 0.0 < raw <= 1.0 && totalFrames + hopSize < U32
    ensures totalFrames <= OnsetFrame(totalFrames, raw, hopSize) <= totalFrames + hopSize
  {
    OffsetBounds(totalFrames, raw, hopSize);
    ToUintBetween(totalFrames as real + raw * (hopSize as real), totalFrames, totalFrames + hopSize);
  }

  lemma OffsetBounds(totalFrames: nat, raw: real, hopSize: nat)
    requires 0.0 < raw <= 1.0
    ensures totalFrames as real <= totalFrames as real + raw * (hopSize as real) <= (totalFrames + hopSize) as real
  {
    var h := hopSize as real;
    assert h - raw * h == (1.0 - raw) * h;
  }

  /** With the default delay, the synthetic onset reports 4 hops. */
  lemma DefaultSyntheticReportsFour(hopSize: nat)
    requires 0 < hopSize && 43 * hopSize < 10 * U32
    ensures DefaultDelay(hopSize) / hopSize == 4
  {
    var d := DefaultDelay(hopSize);
    DivBetween(d, hopSize, 4);
  }

  lemma DivBetween(n: nat, d: nat, q: nat)
    requires 0 < d && q * d <= n < q * d + d
    ensures n / d == q
  {
    var q', r := n / d, n % d;
    assert n == q' * d + r && 0 <= r < d;
    if q' < q {
      MulStrict(q', q, d);
    } else if q' > q {
      MulStrict(q, q', d);
    }
  }

  lemma MulStrict(a: nat, b: nat, d: nat)
    requires a < b
    ensures a * d + d <= b * d
  {
    MulAtLeast(b - a, d);
    assert b * d == a * d + (b - a) * d;
  }

  lemma {:induction false} MulAtLeast(c: nat, d: nat)
    requires c >= 1
    ensures c * d >= d
    decreases c
  {
    if c > 1 {
      MulAtLeast(c - 1, d);
      assert c * d == (c - 1) * d + d;
    }
  }
}
