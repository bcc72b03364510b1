// The onset detector object of src/onset/onset.c: its fields, the per-hop
// call that updates them, and the parameter setters and getters with their
// unit conversions.  The phase vocoder, the onset-strength function, the
// peak picker and the silence test are collaborators: their verdicts for a
// hop arrive as the arguments `raw` and `silent` of Do.
module Onset {
  import opened UInt32
  import opened OnsetCore

  /** The status every setter returns. */
  const AubioOk: nat := 0

  /** set_minioi: a duration in milliseconds as a whole number of hops. */
  function MinioiHops(ms: nat, samplerate: nat, hopSize: nat): (r: nat)
    requires hopSize > 0
    ensures IsUint(r)
    ensures ms * samplerate < 1000 * hopSize * U32 ==>
      1000 * hopSize * r <= ms * samplerate < 1000 * hopSize * (r + 1)
  {
    var x := ms as real / 1000.0 * samplerate as real / hopSize as real;
    HopsBracket(ms, samplerate, hopSize, x, ToUint(x));
    ToUint(x)
  }

  lemma HopsBracket(ms: nat, samplerate: nat, hopSize: nat, x: real, r: nat)
    requires hopSize > 0 && x == ms as real / 1000.0 * samplerate as real / hopSize as real
    requires 0.0 <= x < U32 as real ==> r as real <= x < r as real + 1.0
    ensures ms * samplerate < 1000 * hopSize * U32 ==>
      1000 * hopSize * r <= ms * samplerate < 1000 * hopSize * (r + 1)
  {
    var n, d := ms * samplerate, 1000 * hopSize;
    CastMul(ms, samplerate);
    CastMul(1000, hopSize);
    Rescale(ms as real, samplerate as real, hopSize as real);
    assert x == n as real / d as real;
    if n < d * U32 {
      CastMul(d, U32);
      DivBelow(n as real, d as real, U32 as real);
      FloorBracket(n, d, r, x);
    }
  }

  lemma Rescale(a: real, b: real, c: real)
    requires c > 0.0
    ensures a / 1000.0 * b / c == (a * b) / (1000.0 * c)
  {
  }

  lemma DivBelow(n: real, d: real, bound: real)
    requires d > 0.0 && 0.0 <= n < d * bound
    ensures 0.0 <= n / d < bound
  {
    var x := n / d;
    assert d * x == n;
    if x >= bound {
      MulMonotone(bound, x, d);
    }
  }

  /** r is the whole part of n / d, stated on integers. */
  lemma FloorBracket(n: nat, d: nat, r: nat, x: real)
    requires d > 0 && x == n as real / d as real && r as real <= x < r as real + 1.0
    ensures d * r <= n < d * (r + 1)
  {
    CastMul(d, r);
    CastMul(d, r + 1);
    if n < d * r {
      QuotBelow(n as real, r as real, d as real);
    } else if n >= d * (r + 1) {
      QuotAtLeast(n as real, (r + 1) as real, d as real);
    }
  }

  lemma QuotBelow(a: real, b: real, d: real)
    requires d > 0.0 && a < d * b
    ensures a / d < b
  {
    var q := a / d;
    assert d * q == a;
    if q >= b {
      MulMonotone(b, q, d);
    }
  }

  lemma QuotAtLeast(a: real, b: real, d: real)
    requires d > 0.0 && a >= d * b
    ensures a / d >= b
  {
    var q := a / d;
    assert d * q == a;
    if q < b {
      MulMonotone(q, b, d);
    }
  }

  lemma {:induction false} CastMul(a: nat, b: nat)
    ensures (a * b) as real == a as real * b as real
    decreases b
  {
    if b > 0 {
      CastMul(a, b - 1);
      assert a * b == a * (b - 1) + a;
    }
  }

  lemma MulMonotone(a: real, b: real, d: real)
    requires d > 0.0
    ensures a <= b ==> d * a <= d * b
    ensures a < b ==> d * a < d * b
  {
    assert d * b - d * a == d * (b - a);
  }

  /** set_delay_s: a duration in seconds as a whole number of samples. */
  function DelayFrames(seconds: real, samplerate: nat): (r: nat)
    requires samplerate > 0
    ensures IsUint(r)
    ensures 0.0 <= seconds * samplerate as real < U32 as real ==>
      seconds - 1.0 / samplerate as real < r as real / samplerate as real <= seconds
  {
    var x := seconds * samplerate as real;
    SecondsBracket(seconds, samplerate as real, ToUint(x) as real);
    ToUint(x)
  }

  lemma SecondsBracket(seconds: real, sr: real, d: real)
    requires sr > 0.0
    requires 0.0 <= seconds * sr < U32 as real ==> d <= seconds * sr < d + 1.0
    ensures 0.0 <= seconds * sr < U32 as real ==> seconds - 1.0 / sr < d / sr <= seconds
  {
    if 0.0 <= seconds * sr < U32 as real {
      assert d / sr <= seconds * sr / sr;
      assert seconds * sr / sr == seconds;
      assert seconds * sr / sr < (d + 1.0) / sr == d / sr + 1.0 / sr;
    }
  }

  class Detector {
    var threshold: real     // peak-picking threshold
    var silence: real       // silence threshold, in dB
    var minioi: nat         // minimum inter-onset interval, in hops
    var delay: nat          // delay removed from onset times, in samples
    var wasonset: int       // hops since the last onset; -1 before the first hop
    const samplerate: nat
    const hopSize: nat
    var totalFrames: nat    // samples processed since construction
    var lastOnset: nat      // sample index of the last onset, delay not removed

    ghost predicate Valid()
      reads this
    {
      0 < samplerate < U32 && ValidSettings(Config()) && ValidState(Counters())
    }

    /** The fields the per-hop decision reads. */
    function Config(): Settings
      reads this
    {
      Settings(hopSize, minioi, delay)
    }

    /** The fields the per-hop decision updates. */
    function Counters(): State
      reads this
    {
      State(wasonset, totalFrames, lastOnset)
    }

    /** new_aubio_onset: the default field values. */
    constructor (hopSize: nat, samplerate: nat)
      requires 0 < hopSize < U32 && 0 < samplerate < U32
      ensures Valid()
      ensures this.hopSize == hopSize && this.samplerate == samplerate
      ensures Config() == DefaultSettings(hopSize) && Counters() == Initial
      ensures threshold == DefaultThreshold && silence == DefaultSilence
    {
      lastOnset := 0;
      threshold := DefaultThreshold;
      delay := ToUint(4.3 * hopSize as real);
      minioi := DefaultMinioi;
      silence := DefaultSilence;
      wasonset := -1;
      totalFrames := 0;
      this.samplerate := samplerate;
      this.hopSize := hopSize;
    }

    /**
     * aubio_onset_do: one hop.  `raw` is the peak picker's decision for the
     * hop and `silent` the silence test of its samples; the result is the
     * value written to the output slot.
     */
    method Do(raw: real, silent: bool) returns (reported: real)
      requires Valid()
      modifies this`wasonset, this`totalFrames, this`lastOnset
      ensures Valid()
      ensures Counters() == Step(Config(), old(Counters()), Input(raw, silent)).next
      ensures reported == Step(Config(), old(Counters()), Input(raw, silent)).reported
      ensures totalFrames == Add32(old(totalFrames), hopSize)
    {
      var isonset := raw;
      var was := wasonset;
      if isonset > 0.0 {
        if silent {
          isonset := 0.0;
          was := was + 1;
        } else {
          if was > minioi {
            was := 0;
            lastOnset := ToUint(totalFrames as real + isonset * (hopSize as real));
          } else {
            isonset := 0.0;
            was := was + 1;
          }
        }
      } else {
        if was == -1 && !silent {
          isonset := (delay / hopSize) as real;
          lastOnset := delay;
          was := 0;
        }
        was := was + 1;
      }
      wasonset := was;
      reported := isonset;
      totalFrames := Add32(totalFrames, hopSize);
    }

    /** get_last_onset: the last onset in samples with the delay removed, in uint_t. */
    function GetLastOnset(): (r: real)
      reads this
      requires Valid()
      ensures 0.0 <= r < U32 as real
      ensures delay <= lastOnset ==> r == (lastOnset - delay) as real
      ensures lastOnset < delay ==> r == (U32 + lastOnset - delay) as real
    {
      Sub32(lastOnset, delay) as real
    }

    /** get_last_onset_s: the same instant in seconds. */
    function GetLastOnsetS(): (r: real)
      reads this
      requires Valid()
      ensures r * samplerate as real == GetLastOnset()
    {
      GetLastOnset() / samplerate as real
    }

    /** get_last_onset_ms as written: it divides the seconds by 1000. */
    function GetLastOnsetMs(): (r: real)
      reads this
      requires Valid()
      ensures r * samplerate as real * 1000.0 == GetLastOnset()
    {
      GetLastOnsetS() / 1000.0
    }

    /** The last onset in milliseconds, scaled as get_delay_ms scales the delay. */
    function GetLastOnsetMsCorrected(): (r: real)
      reads this
      requires Valid()
      ensures r * samplerate as real == GetLastOnset() * 1000.0
    {
      GetLastOnsetS() * 1000.0
    }

    /** set_silence */
    method SetSilence(silence: real) returns (status: nat)
      modifies this`silence
      ensures this.silence == silence && status == AubioOk
    {
      this.silence := silence;
      status := AubioOk;
    }

    /** set_threshold; forwarding the value to the peak picker is not modelled. */
    method SetThreshold(threshold: real) returns (status: nat)
      modifies this`threshold
      ensures this.threshold == threshold && status == AubioOk
    {
      this.threshold := threshold;
      status := AubioOk;
    }

    /** set_minioi: the interval arrives in milliseconds and is stored in hops. */
    method SetMinioi(ms: nat) returns (status: nat)
      requires Valid() && IsUint(ms)
      modifies this`minioi
      ensures Valid() && status == AubioOk
      ensures minioi == MinioiHops(ms, samplerate, hopSize)
      ensures GetMinioi() == MinioiHops(ms, samplerate, hopSize)
    {
      minioi := ToUint(ms as real / 1000.0 * samplerate as real / hopSize as real);
      status := AubioOk;
    }

    /** get_minioi: the stored interval, in hops rather than milliseconds. */
    function GetMinioi(): (r: nat)
      reads this
      ensures r == minioi
    {
      minioi
    }

    /** set_delay */
    method SetDelay(delay: nat) returns (status: nat)
      requires Valid() && IsUint(delay)
      modifies this`delay
      ensures Valid() && status == AubioOk
      ensures this.delay == delay && GetDelay() == delay
    {
      this.delay := delay;
      status := AubioOk;
    }

    /** get_delay */
    function GetDelay(): (r: nat)
      reads this
      ensures r == delay
    {
      delay
    }

    /** set_delay_s: seconds truncated to whole samples. */
    method SetDelayS(seconds: real) returns (status: nat)
      requires Valid()
      modifies this`delay
      ensures Valid() && status == AubioOk
      ensures delay == DelayFrames(seconds, samplerate)
      ensures 0.0 <= seconds * samplerate as real < U32 as real ==>
        seconds - 1.0 / samplerate as real < GetDelayS() <= seconds
    {
      status := SetDelay(ToUint(seconds * samplerate as real));
    }

    /** get_delay_s */
    function GetDelayS(): (r: real)
      reads this
      requires Valid()
      ensures r * samplerate as real == delay as real
    {
      GetDelay() as real / samplerate as real
    }

    /** set_delay_ms: milliseconds, by way of set_delay_s. */
    method SetDelayMs(ms: real) returns (status: nat)
      requires Valid()
      modifies this`delay
      ensures Valid() && status == AubioOk
      ensures delay == DelayFrames(ms / 1000.0, samplerate)
      ensures 0.0 <= ms / 1000.0 * samplerate as real < U32 as real ==>
        ms - 1000.0 / samplerate as real < GetDelayMs() <= ms
    {
      status := SetDelayS(ms / 1000.0);
    }

    /** get_delay_ms */
    function GetDelayMs(): (r: real)
      reads this
      requires Valid()
      ensures r * samplerate as real == delay as real * 1000.0
    {
      GetDelayS() * 1000.0
    }
  }

  lemma DivSelf(x: real)
    requires x > 0.0
    ensures x / x == 1.0
  {
  }

  /**
   * get_last_onset_ms divides where it should multiply: one second after
   * the delay it reports 0.001 instead of 1000 milliseconds.
   */
  lemma LastOnsetMsDivides(o: Detector)
    requires o.Valid() && o.lastOnset == o.delay + o.samplerate
    ensures o.GetLastOnsetS() == 1.0
    ensures o.GetLastOnsetMs() == 0.001
    ensures o.GetLastOnsetMsCorrected() == 1000.0
  {
    var sr := o.samplerate as real;
    assert o.GetLastOnset() == sr > 0.0;
    DivSelf(sr);
  }

  /** The corrected conversion agrees with get_delay_ms: a delay-long onset time reads as the delay. */
  lemma LastOnsetMsMatchesDelayMs(o: Detector)
    requires o.Valid() && o.lastOnset == 2 * o.delay
    ensures o.GetLastOnsetMsCorrected() == o.GetDelayMs()
    ensures o.delay > 0 ==> o.GetLastOnsetMs() != o.GetDelayMs()
  {
  }
}
