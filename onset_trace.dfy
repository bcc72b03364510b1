// Runs of the per-hop decision over a stream of hops with fixed settings,
// and what holds along every run: the clock, the sentinel, the debounce
// spacing and silence suppression.
module OnsetTrace {
  import opened UInt32
  import opened OnsetCore

  /** The states before each hop of `ins` and after the last one. */
  function Trace(p: Settings, s: State, ins: seq<Input>): (t: seq<State>)
    requires ValidSettings(p) && ValidState(s)
    ensures |t| == |ins| + 1 && t[0] == s
    ensures forall k :: 0 <= k < |t| ==> ValidState(t[k])
    decreases |ins|
  {
    if ins == [] then [s] else [s] + Trace(p, Step(p, s, ins[0]).next, ins[1..])
  }

  /** Hop `k` of the run: the decision taken on the state before it. */
  function HopAt(p: Settings, s: State, ins: seq<Input>, k: nat): Hop
    requires ValidSettings(p) && ValidState(s) && k < |ins|
  {
    Step(p, Trace(p, s, ins)[k], ins[k])
  }

  lemma {:induction false} TraceStep(p: Settings, s: State, ins: seq<Input>, k: nat)
    requires ValidSettings(p) && ValidState(s) && k < |ins|
    ensures Trace(p, s, ins)[k + 1] == HopAt(p, s, ins, k).next
    decreases k
  {
    if k > 0 {
      var s' := Step(p, s, ins[0]).next;
      TraceStep(p, s', ins[1..], k - 1);
      assert Trace(p, s, ins)[k] == Trace(p, s', ins[1..])[k - 1];
      assert ins[k] == ins[1..][k - 1];
    }
  }

  lemma {:induction false} ModShift(x: nat, h: nat)
    ensures ((x % U32) + h) % U32 == (x + h) % U32
  {
    var q, r := x / U32, x % U32;
    assert x == q * U32 + r;
    ModMultiple(q, r + h);
    assert x + h == q * U32 + (r + h);
  }

  lemma {:induction false} ModMultiple(q: nat, y: nat)
    ensures (q * U32 + y) % U32 == y % U32
    decreases q
  {
    if q > 0 {
      ModMultiple(q - 1, y);
      assert q * U32 + y == ((q - 1) * U32 + y) + U32;
    }
  }

  /** The clock advances by exactly one hop per call, modulo 2^32. */
  lemma {:induction false} TraceClock(p: Settings, s: State, ins: seq<Input>, k: nat)
    requires ValidSettings(p) && ValidState(s) && k <= |ins|
    ensures Trace(p, s, ins)[k].totalFrames == (s.totalFrames + k * p.hopSize) % U32
    decreases k
  {
    if k > 0 {
      TraceClock(p, s, ins, k - 1);
      TraceStep(p, s, ins, k - 1);
      ClockStep(Trace(p, s, ins)[k - 1].totalFrames, s.totalFrames, k - 1, p.hopSize);
    }
  }

  lemma ClockStep(before: nat, start: nat, k: nat, h: nat)
    requires IsUint(before) && IsUint(h) && before == (start + k * h) % U32
    ensures Add32(before, h) == (start + (k + 1) * h) % U32
  {
    Add32IsMod(before, h);
    ModShift(start + k * h, h);
    assert start + k * h + h == start + (k + 1) * h;
  }

  /**
   * From construction the clock, read before hop k, is k whole hops, as
   * long as it has not wrapped.
   */
  lemma {:induction false} ClockFromStart(p: Settings, ins: seq<Input>, k: nat)
    requires ValidSettings(p) && k <= |ins| && k * p.hopSize < U32
    ensures Trace(p, Initial, ins)[k].totalFrames == k * p.hopSize
  {
    TraceClock(p, Initial, ins, k);
    var n := k * p.hopSize;
    assert 0 + n == n && n % U32 == n;
  }

  /** After the first hop the counter is never the sentinel again. */
  lemma {:induction false} CounterSet(p: Settings, s: State, ins: seq<Input>, k: nat)
    requires ValidSettings(p) && ValidState(s) && 1 <= k <= |ins|
    ensures Trace(p, s, ins)[k].wasonset >= 0
  {
    TraceStep(p, s, ins, k - 1);
  }

  /** The synthetic onset can only be taken on the first hop of a fresh detector. */
  lemma {:induction false} SyntheticAtMostOnce(p: Settings, s: State, ins: seq<Input>, k: nat)
    requires ValidSettings(p) && ValidState(s) && k < |ins|
    requires Synthetic(p, Trace(p, s, ins)[k], ins[k])
    ensures k == 0 && s.wasonset == -1
  {
    if k > 0 {
      CounterSet(p, s, ins, k);
    }
  }

  /** Once set, the counter grows by at most one per hop. */
  lemma {:induction false} CounterGrowth(p: Settings, s: State, ins: seq<Input>, i: nat, m: nat)
    requires ValidSettings(p) && ValidState(s) && 1 <= i <= m <= |ins|
    ensures Trace(p, s, ins)[m].wasonset <= Trace(p, s, ins)[i].wasonset + (m - i)
  {
    if m > i {
      CounterGrowth(p, s, ins, i, m - 1);
      CounterSet(p, s, ins, m - 1);
      TraceStep(p, s, ins, m - 1);
    }
  }

  /**
   * Debounce: two accepted peaks of one run are at least minioi + 2 hops
   * apart (the counter is 0 on the hop after an onset and must exceed minioi).
   */
  lemma {:induction false} Debounce(p: Settings, s: State, ins: seq<Input>, i: nat, j: nat)
    requires ValidSettings(p) && ValidState(s) && i < j < |ins|
    requires Accepted(p, Trace(p, s, ins)[i], ins[i])
    requires Accepted(p, Trace(p, s, ins)[j], ins[j])
    ensures j - i >= p.minioi + 2
  {
    TraceStep(p, s, ins, i);
    CounterGrowth(p, s, ins, i + 1, j);
  }

  /** Even with minioi = 0, a peak on the hop right after an accepted one is rejected. */
  lemma {:induction false} NoBackToBackOnsets(p: Settings, s: State, ins: seq<Input>, i: nat)
    requires ValidSettings(p) && ValidState(s) && i + 1 < |ins|
    requires Accepted(p, Trace(p, s, ins)[i], ins[i])
    ensures !Accepted(p, Trace(p, s, ins)[i + 1], ins[i + 1])
  {
    if Accepted(p, Trace(p, s, ins)[i + 1], ins[i + 1]) {
      Debounce(p, s, ins, i, i + 1);
    }
  }

  /** A peak after the synthetic onset is accepted only from hop minioi + 1 on. */
  lemma {:induction false} DebounceAfterSynthetic(p: Settings, s: State, ins: seq<Input>, j: nat)
    requires ValidSettings(p) && ValidState(s) && 0 < j < |ins|
    requires Synthetic(p, s, ins[0])
    requires Accepted(p, Trace(p, s, ins)[j], ins[j])
    ensures j >= p.minioi + 1
  {
    TraceStep(p, s, ins, 0);
    CounterGrowth(p, s, ins, 1, j);
  }

  predicate AllSilent(ins: seq<Input>)
  {
    forall k :: 0 <= k < |ins| ==> ins[k].silent && ins[k].raw >= 0.0
  }

  /**
   * A stream that is silent throughout reports nothing, takes no onset
   * (neither a peak nor the synthetic one) and keeps the last onset.
   */
  lemma {:induction false} SilentStream(p: Settings, s: State, ins: seq<Input>, k: nat)
    requires ValidSettings(p) && ValidState(s) && AllSilent(ins) && k <= |ins|
    ensures Trace(p, s, ins)[k].lastOnset == s.lastOnset
    ensures k < |ins| ==> HopAt(p, s, ins, k).reported == 0.0
    ensures k < |ins| ==> !Accepted(p, Trace(p, s, ins)[k], ins[k]) && !Synthetic(p, Trace(p, s, ins)[k], ins[k])
  {
    if k > 0 {
      SilentStream(p, s, ins, k - 1);
      TraceStep(p, s, ins, k - 1);
    }
  }

  /** A fresh detector fed only silent hops without peaks counts them. */
  lemma {:induction false} QuietStart(p: Settings, ins: seq<Input>, k: nat)
    requires ValidSettings(p) && 1 <= k <= |ins|
    requires forall m :: 0 <= m < k ==> ins[m] == Input(0.0, true)
    ensures Trace(p, Initial, ins)[k].wasonset == k - 1
    ensures Trace(p, Initial, ins)[k].lastOnset == 0
  {
    TraceStep(p, Initial, ins, k - 1);
    if k > 1 {
      QuietStart(p, ins, k - 1);
    }
  }

  /**
   * Scenario at 512-sample hops with minioi = 0 and the default delay: 20
   * silent hops, then a peak at offset 1 on two consecutive sounding hops.
   * The first is reported at sample 21 * 512 (8551 once the delay is
   * removed); the second is debounced.
   */
  lemma SilenceThenPeaks()
    ensures var p := Settings(512, 0, DefaultDelay(512));
            var ins := seq(20, _ => Input(0.0, true)) + [Input(1.0, false), Input(1.0, false)];
            p.delay == 2201 &&
            HopAt(p, Initial, ins, 20).reported == 1.0 &&
            Trace(p, Initial, ins)[21].lastOnset == 10752 &&
            Sub32(Trace(p, Initial, ins)[21].lastOnset, p.delay) == 8551 &&
            HopAt(p, Initial, ins, 21).reported == 0.0
  {
    var p := Settings(512, 0, DefaultDelay(512));
    var ins := seq(20, _ => Input(0.0, true)) + [Input(1.0, false), Input(1.0, false)];
    assert ToUint(4.3 * 512.0) == 2201 by {
      assert 2201.0 <= 4.3 * 512.0 < 2202.0;
    }
    QuietStart(p, ins, 20);
    ClockFromStart(p, ins, 20);
    var t := Trace(p, Initial, ins);
    assert t[20] == State(19, 10240, 0);
    assert Accepted(p, t[20], ins[20]);
    AcceptedPeak(p, t[20], ins[20]);
    assert ToUint(10240.0 + 1.0 * 512.0) == 10752 by {
      assert 10752.0 <= 10240.0 + 1.0 * 512.0 < 10753.0;
    }
    TraceStep(p, Initial, ins, 20);
    DebouncedPeak(p, t[21], ins[21]);
  }
}
