/**
 What runs of the reference PLL without a direct switch amount to: lead and
 phase agree with the event history, lock means three good captures, and the
 DAC moves by integer arithmetic.
 */
module RefPllTheorems {
  import opened Bits
  import opened RegisterMap
  import opened RefPll
  import opened RefPllInvariant

  // ---------------------------------------------------------------------
  // Lead and phase against the history of divided edges.

  /** The divided edges of one cycle with an accepted reference. */
  datatype Edges = Edges(r: bool, n: bool)

  /** The latest cycle with a divided clock edge, or -1. */
  function LatestN(history: seq<Edges>): (i: int)
    ensures -1 <= i < |history|
    ensures 0 <= i ==> history[i].n
    ensures forall j :: i < j < |history| ==> !history[j].n
  {
    if history == [] then -1
    else if history[|history| - 1].n then |history| - 1
    else LatestN(history[..|history| - 1])
  }

  /** The latest cycle with a divided reference edge, or -1. */
  function LatestR(history: seq<Edges>): (i: int)
    ensures -1 <= i < |history|
    ensures 0 <= i ==> history[i].r
    ensures forall j :: i < j < |history| ==> !history[j].r
  {
    if history == [] then -1
    else if history[|history| - 1].r then |history| - 1
    else LatestR(history[..|history| - 1])
  }

  /**
   The lead of a reference edge in the cycle after `history`: zero if a clock
   edge is simultaneous, otherwise minus the cycles since the latest clock edge
   at or after the previous reference edge, otherwise one.
   */
  function LeadOf(history: seq<Edges>, simultaneous: bool): int {
    var n := LatestN(history);
    if simultaneous then 0
    else if 0 <= n && LatestR(history) <= n then n - |history|
    else 1
  }

  /** The lead of the latest reference edge in the history; zero before the first. */
  function LatestLead(history: seq<Edges>): int {
    var r := LatestR(history);
    if r < 0 then 0 else LeadOf(history[..r], history[r].n)
  }

  predicate LeadAgrees(s: State, history: seq<Edges>) {
    var n := LatestN(history);
    && (s.lead.enable <==> 0 <= n && LatestR(history) <= n)
    && (s.lead.enable ==> s.lead.count == n + 1 - |history|)
    && s.lead.lead == LatestLead(history)
  }

  /** The divided edges since the reference was accepted, after a run. */
  function History(holdoverDac: Word16, s: State, past: seq<Edges>, samples: seq<bool>): seq<Edges>
    decreases samples
  {
    if samples == [] then past
    else
      History(holdoverDac, Step(holdoverDac, s, samples[0]),
              if s.classifier.Valid() then past + [Edges(s.r.rising, s.n.rising)] else [], samples[1..])
  }

  lemma HistoryGrows(history: seq<Edges>, e: Edges)
    ensures var longer := history + [e];
            && LatestN(longer) == (if e.n then |history| else LatestN(history))
            && LatestR(longer) == (if e.r then |history| else LatestR(history))
            && LatestLead(longer) == if e.r then LeadOf(history, e.n) else LatestLead(history)
  {
    var longer := history + [e];
    assert longer[..|longer| - 1] == history;
    if e.r {
      assert longer[..|history|] == history;
    } else {
      var r := LatestR(history);
      if 0 <= r {
        assert longer[..r] == history[..r];
      }
    }
  }

  lemma StepLead(holdoverDac: Word16, s: State, history: seq<Edges>, sample: bool)
    requires Inv(s) && s.classifier.Valid() && LeadAgrees(s, history)
    ensures LeadAgrees(Step(holdoverDac, s, sample), history + [Edges(s.r.rising, s.n.rising)])
  {
    HistoryGrows(history, Edges(s.r.rising, s.n.rising));
  }

  /** At every cycle of a run from reset, counter and lead are what the history says. */
  lemma {:induction false} LeadIsHistory(holdoverDac: Word16, s: State, past: seq<Edges>, samples: seq<bool>)
    requires Inv(s) && NoDirectSwitch(holdoverDac, s, samples)
    requires s.classifier.Valid() ==> LeadAgrees(s, past)
    ensures var end := Run(holdoverDac, s, samples);
            end.classifier.Valid() ==> LeadAgrees(end, History(holdoverDac, s, past, samples))
    decreases samples
  {
    if samples != [] {
      var next := Step(holdoverDac, s, samples[0]);
      StepKeepsInv(holdoverDac, s, samples[0]);
      if s.classifier.Valid() {
        StepLead(holdoverDac, s, past, samples[0]);
        LeadIsHistory(holdoverDac, next, past + [Edges(s.r.rising, s.n.rising)], samples[1..]);
      } else {
        LeadIsHistory(holdoverDac, next, [], samples[1..]);
      }
    }
  }

  /** Cycles from the latest reference edge in the history, or from acceptance, to the cycle after it. */
  function PeriodOf(history: seq<Edges>): int {
    var r := LatestR(history);
    if r < 0 then |history| else |history| - r
  }

  predicate PeriodAgrees(s: State, history: seq<Edges>) {
    var r := LatestR(history);
    && s.period.measured == PeriodOf(history)
    && s.period.frequencyError == if r < 0 then 0 else s.classifier.ExpectedPeriod() - PeriodOf(history[..r])
  }

  lemma StepPeriod(holdoverDac: Word16, s: State, history: seq<Edges>, sample: bool)
    requires SteadyStep(holdoverDac, s, sample) && PeriodAgrees(s, history)
    ensures PeriodAgrees(Step(holdoverDac, s, sample), history + [Edges(s.r.rising, s.n.rising)])
  {
    var e := Edges(s.r.rising, s.n.rising);
    HistoryGrows(history, e);
    NoCounterWraps(s);
    var r := LatestR(history);
    if e.r {
      assert (history + [e])[..|history|] == history;
    } else if 0 <= r {
      assert (history + [e])[..r] == history[..r];
    }
  }

  /**
   At every cycle of a run from reset, the frequency error is the expected
   period less the exact distance between the two latest reference edges (from
   acceptance to the first one).
   */
  lemma {:induction false} PeriodIsHistory(holdoverDac: Word16, s: State, past: seq<Edges>, samples: seq<bool>)
    requires Inv(s) && NoDirectSwitch(holdoverDac, s, samples)
    requires s.classifier.Valid() ==> PeriodAgrees(s, past)
    ensures var end := Run(holdoverDac, s, samples);
            end.classifier.Valid() ==> PeriodAgrees(end, History(holdoverDac, s, past, samples))
    decreases samples
  {
    if samples != [] {
      var next := Step(holdoverDac, s, samples[0]);
      StepKeepsInv(holdoverDac, s, samples[0]);
      if s.classifier.Valid() {
        if next.classifier.Valid() {
          StepPeriod(holdoverDac, s, past, samples[0]);
        }
        PeriodIsHistory(holdoverDac, next, past + [Edges(s.r.rising, s.n.rising)], samples[1..]);
      } else {
        PeriodIsHistory(holdoverDac, next, [], samples[1..]);
      }
    }
  }

  lemma PhaseIsNearer(lead: int, period: int, k: int, shift: int)
    requires -period < lead <= 1 && 2 <= period && shift == k * period
    ensures Magnitude(PhaseOf(lead, period)) <= Magnitude(lead + shift)
  {
    MultipleBounds(period, k, shift);
  }

  lemma MultipleBounds(period: int, k: int, shift: int)
    requires 0 < period && shift == k * period
    ensures shift <= -period || shift == 0 || shift == period || 2 * period <= shift
  {
    if k <= -1 {
      assert 0 <= (-1 - k) * period;
    } else if 2 <= k {
      assert 0 <= (k - 2) * period;
    }
  }

  /** The captured phase is congruent to the lead and at most half a period. */
  lemma PhaseIsNearest(lead: int, period: int)
    requires -period < lead <= 1 && 2 <= period
    ensures var phase := PhaseOf(lead, period);
            && (phase - lead) % period == 0
            && -period <= 2 * phase <= period
            && forall k: int :: Magnitude(phase) <= Magnitude(lead + k * period)
  {
    forall k: int
      ensures Magnitude(PhaseOf(lead, period)) <= Magnitude(lead + k * period)
    {
      PhaseIsNearer(lead, period, k, k * period);
    }
  }

  // ---------------------------------------------------------------------
  // Lock.

  /** The phases captured since the reference was accepted, after a run. */
  function Captures(holdoverDac: Word16, s: State, past: seq<int>, samples: seq<bool>): seq<int>
    decreases samples
  {
    if samples == [] then past
    else
      Captures(holdoverDac, Step(holdoverDac, s, samples[0]),
               if !s.classifier.Valid() then [] else past + Capture(s), samples[1..])
  }

  /** What the next cycle captures, as a list. */
  function Capture(s: State): seq<int> {
    if s.loop.state.CAPTURE_LAG? || s.loop.state.CAPTURE_LEAD?
    then [PhaseOf(s.lead.lead, if s.classifier.is10m then 20_000_000 else 200_000_000)] else []
  }

  predicate Within(captures: seq<int>, back: nat, margin: int) {
    back <= |captures| && 0 < back && -margin <= captures[|captures| - back] <= margin
  }

  predicate LockAgrees(s: State, captures: seq<int>) {
    var margin: int := s.classifier.LockMargin();
    && (s.loop.lockHistory.latest <==> Within(captures, 1, margin))
    && (s.loop.lockHistory.second <==> Within(captures, 2, margin))
    && (s.loop.lockHistory.third <==> Within(captures, 3, margin))
  }

  lemma WithinShifts(captures: seq<int>, x: int, margin: int)
    ensures var longer := captures + [x];
            && (Within(longer, 1, margin) <==> -margin <= x <= margin)
            && (Within(longer, 2, margin) <==> Within(captures, 1, margin))
            && (Within(longer, 3, margin) <==> Within(captures, 2, margin))
  {
    var longer := captures + [x];
    assert longer[|longer| - 1] == x;
    assert 2 <= |longer| ==> longer[|longer| - 2] == captures[|captures| - 1];
    assert 3 <= |longer| ==> longer[|longer| - 3] == captures[|captures| - 2];
  }

  lemma StepLock(holdoverDac: Word16, s: State, captures: seq<int>, sample: bool)
    requires SteadyStep(holdoverDac, s, sample) && LockAgrees(s, captures)
    ensures LockAgrees(Step(holdoverDac, s, sample), captures + Capture(s))
    ensures Step(holdoverDac, s, sample).loop.phaseError
         == (if Capture(s) == [] then s.loop.phaseError else Capture(s)[0])
  {
    NoCounterWraps(s);
    if Capture(s) == [] {
      assert captures + Capture(s) == captures;
    } else {
      WithinShifts(captures, Capture(s)[0], s.classifier.LockMargin());
    }
  }

  lemma {:induction false} LockIsHistory(holdoverDac: Word16, s: State, past: seq<int>, samples: seq<bool>)
    requires Inv(s) && NoDirectSwitch(holdoverDac, s, samples)
    requires s.classifier.Valid() ==> LockAgrees(s, past)
    ensures var end := Run(holdoverDac, s, samples);
            end.classifier.Valid() ==> LockAgrees(end, Captures(holdoverDac, s, past, samples))
    decreases samples
  {
    if samples != [] {
      var next := Step(holdoverDac, s, samples[0]);
      StepKeepsInv(holdoverDac, s, samples[0]);
      if !s.classifier.Valid() {
        LockIsHistory(holdoverDac, next, [], samples[1..]);
      } else {
        if next.classifier.Valid() {
          StepLock(holdoverDac, s, past, samples[0]);
        }
        LockIsHistory(holdoverDac, next, past + Capture(s), samples[1..]);
      }
    }
  }

  /** The three latest captures lie within the margin. */
  predicate ThreeGood(captures: seq<int>, margin: int) {
    3 <= |captures| && forall i :: |captures| - 3 <= i < |captures| ==> -margin <= captures[i] <= margin
  }

  /**
   Lock soundness: `locked` is high exactly when, a cycle before, the reference
   was accepted and the three most recent captures since it was accepted all lay
   within 20 cycles at 10 MHz, or within 200 at PPS.
   */
  lemma LockMeansThreeGoodCaptures(holdoverDac: Word16, reference: nat, samples: seq<bool>)
    requires reference < 10 && NoDirectSwitch(holdoverDac, Reset(holdoverDac, reference), samples)
    ensures var start := Reset(holdoverDac, reference);
            if samples == [] then !Run(holdoverDac, start, samples).locked
            else
              var past := samples[..|samples| - 1];
              var s := Run(holdoverDac, start, past);
              Run(holdoverDac, start, samples).locked
              <==> s.classifier.Valid()
                   && ThreeGood(Captures(holdoverDac, start, [], past), if s.classifier.is10m then 20 else 200)
  {
    if samples != [] {
      var past, last := samples[..|samples| - 1], samples[|samples| - 1];
      var s := Run(holdoverDac, Reset(holdoverDac, reference), past);
      assert samples == past + [last];
      RunOneMore(holdoverDac, Reset(holdoverDac, reference), past, last);
      LockedNext(holdoverDac, reference, past, last);
    }
  }

  lemma {:induction false} RunOneMore(holdoverDac: Word16, s: State, samples: seq<bool>, last: bool)
    ensures Run(holdoverDac, s, samples + [last]) == Step(holdoverDac, Run(holdoverDac, s, samples), last)
    ensures NoDirectSwitch(holdoverDac, s, samples + [last]) ==> NoDirectSwitch(holdoverDac, s, samples)
    decreases samples
  {
    if samples == [] {
      assert samples + [last] == [last] && [last][1..] == [];
      assert Run(holdoverDac, s, [last]) == Run(holdoverDac, Step(holdoverDac, s, last), []);
    } else {
      assert (samples + [last])[1..] == samples[1..] + [last];
      RunOneMore(holdoverDac, Step(holdoverDac, s, samples[0]), samples[1..], last);
    }
  }

  /**
   A cycle without an accepted reference leaves nothing of what was measured
   before: but for the classifier, the pin's registers and the phase of the
   divided clock, every register is as reset leaves it.
   */
  lemma LossForgets(holdoverDac: Word16, s: State, samples: seq<bool>, last: bool)
    requires !Run(holdoverDac, s, samples).classifier.Valid()
    ensures var end := Run(holdoverDac, s, samples + [last]);
            && end.r == end.n == Divider(0, false) && end.period == Period(0, 0) && end.lead == Lead(0, false, 0)
            && end.loop == Loop(MEASURE, holdoverDac, 0, 0, 0, 0, 0, LockHistory(false, false, false))
            && !end.locked
  {
    RunOneMore(holdoverDac, s, samples, last);
  }

  lemma LockedNext(holdoverDac: Word16, reference: nat, samples: seq<bool>, last: bool)
    requires reference < 10 && NoDirectSwitch(holdoverDac, Reset(holdoverDac, reference), samples)
    ensures var s := Run(holdoverDac, Reset(holdoverDac, reference), samples);
            var captures := Captures(holdoverDac, Reset(holdoverDac, reference), [], samples);
            Step(holdoverDac, s, last).locked
            <==> s.classifier.Valid() && ThreeGood(captures, if s.classifier.is10m then 20 else 200)
  {
    ResetInv(holdoverDac, reference);
    LockIsHistory(holdoverDac, Reset(holdoverDac, reference), [], samples);
    var s := Run(holdoverDac, Reset(holdoverDac, reference), samples);
    var captures := Captures(holdoverDac, Reset(holdoverDac, reference), [], samples);
    var margin: int := s.classifier.LockMargin();
    assert ThreeGood(captures, margin)
       <==> Within(captures, 1, margin) && Within(captures, 2, margin) && Within(captures, 3, margin);
  }

  // ---------------------------------------------------------------------
  // The DAC update.

  /** Cycles of update left. */
  function UpdateLeft(s: State): nat {
    8 - LoopAge(s.loop.state) - if !s.classifier.is10m && LoopAge(s.loop.state) <= 3 then 1 else 0
  }

  /** The number that 29 bits of two's complement keep of `x`. */
  function Low29(x: int): int {
    var low := x % 0x2000_0000;
    if low < 0x1000_0000 then low else low - 0x2000_0000
  }

  /** The nearest 16-bit value. */
  function Saturated(x: int): Word16 {
    if x <= 0 then 0 else if 0xFFFF <= x then 0xFFFF else x
  }

  /** A DAC value after one update for the error `e`. */
  function Updated(dac: Word16, is10m: bool, e: int): Word16 {
    Saturated(Low29(dac + if is10m then e * Pow2(Smaller(Magnitude(e), 7)) else 15 * e))
  }

  /** The registers keep what the numbers say. */
  lemma RegistersUpdate(dac: Word16, is10m: bool, e: int)
    ensures Clamp16(Wrap29(dac + Correction(is10m, e))) == Updated(dac, is10m, e)
  {
    var x := dac + Correction(is10m, e);
    assert Wrap29(x) == Low29(x);
  }

  /** The value the update in progress will give the DAC. */
  function Target(s: State): Word16 {
    Clamp16(Wrap29(s.loop.automaticDac + Correction(s.classifier.is10m, Error(s))))
  }

  lemma StepUpdate(holdoverDac: Word16, s: State, sample: bool)
    requires SteadyStep(holdoverDac, s, sample)
    ensures var next := Step(holdoverDac, s, sample);
            match s.loop.state
            case MEASURE => next.loop.automaticDac == s.loop.automaticDac
                            && (next.loop.state.CAPTURE? <==> s.r.rising)
            case APPLY_OUTPUT => next.loop.automaticDac == Target(s) && next.loop.state.MEASURE?
            case _ => next.loop.automaticDac == s.loop.automaticDac && !next.loop.state.MEASURE?
                      && Target(next) == Target(s) && UpdateLeft(next) == UpdateLeft(s) - 1
  {
    ClassifyKeepsInv(s.classifier, s.external.Rising());
    if LoopAge(s.loop.state) > 0 {
      StepInputs(holdoverDac, s, sample);
    }
  }

  /** The reference stays accepted, of one kind, throughout the run. */
  predicate SteadyRun(holdoverDac: Word16, s: State, samples: seq<bool>)
    decreases samples
  {
    samples == [] ||
    (SteadyStep(holdoverDac, s, samples[0]) && SteadyRun(holdoverDac, Step(holdoverDac, s, samples[0]), samples[1..]))
  }

  lemma {:induction false} UpdateFinishes(holdoverDac: Word16, s: State, samples: seq<bool>)
    requires Inv(s) && s.classifier.Valid() && !s.loop.state.MEASURE?
    requires SteadyRun(holdoverDac, s, samples) && |samples| == UpdateLeft(s)
    ensures var end := Run(holdoverDac, s, samples);
            end.loop.state.MEASURE? && end.loop.automaticDac == Target(s)
    decreases samples
  {
    var next := Step(holdoverDac, s, samples[0]);
    StepUpdate(holdoverDac, s, samples[0]);
    StepKeepsInv(holdoverDac, s, samples[0]);
    if !s.loop.state.APPLY_OUTPUT? {
      UpdateFinishes(holdoverDac, next, samples[1..]);
    } else {
      assert samples[1..] == [];
    }
  }

  lemma EdgeStartsUpdate(holdoverDac: Word16, s: State, sample: bool)
    requires SteadyStep(holdoverDac, s, sample) && s.r.rising
    ensures var next := Step(holdoverDac, s, sample);
            && Inv(next) && next.classifier.Valid() && next.classifier.is10m == s.classifier.is10m
            && next.loop.state.CAPTURE? && next.loop.automaticDac == s.loop.automaticDac
            && UpdateLeft(next) == (if s.classifier.is10m then 7 else 6)
  {
    NoCounterWraps(s);
    StepUpdate(holdoverDac, s, sample);
    StepKeepsInv(holdoverDac, s, sample);
  }

  /**
   From a divided reference edge, eight cycles later at 10 MHz and seven at PPS,
   the DAC value is the old one plus the correction for the captured error,
   clamped to 16 bits, through one 29-bit register.
   */
  lemma EdgeUpdatesDac(holdoverDac: Word16, s: State, samples: seq<bool>)
    requires Inv(s) && s.classifier.Valid() && s.r.rising
    requires SteadyRun(holdoverDac, s, samples) && |samples| == if s.classifier.is10m then 8 else 7
    ensures var error := Error(Step(holdoverDac, s, samples[0]));
            var end := Run(holdoverDac, s, samples);
            && end.loop.state.MEASURE?
            && end.loop.automaticDac == Updated(s.loop.automaticDac, s.classifier.is10m, error)
  {
    EdgeStartsUpdate(holdoverDac, s, samples[0]);
    UpdateFinishes(holdoverDac, Step(holdoverDac, s, samples[0]), samples[1..]);
    RegistersUpdate(s.loop.automaticDac, s.classifier.is10m, Error(Step(holdoverDac, s, samples[0])));
  }

  /** When the 29-bit sum clamps as the true sum does: it fits, or it wraps back onto the same side. */
  predicate SumSurvives(sum: int) {
    var residue := sum % 0x2000_0000;
    || -0x1000_0000 <= sum < 0x1000_0000
    || (0 < sum && 65535 <= residue < 0x1000_0000)
    || (sum < 0 && (residue == 0 || 0x1000_0000 <= residue))
  }

  /** Exactly when the update is what unbounded arithmetic would give. */
  lemma DacUpdateExactly(dac: Word16, is10m: bool, e: int)
    ensures var sum := dac + Correction(is10m, e);
            Updated(dac, is10m, e) == Saturated(sum) <==> SumSurvives(sum)
  {
  }

  /** Errors for which every DAC value is updated exactly. */
  predicate SmallError(is10m: bool, e: int) {
    var bound := if is10m then 2_096_640 else 17_891_328;
    -bound <= e <= bound
  }

  lemma SmallErrorIsExact(dac: Word16, is10m: bool, e: int)
    requires SmallError(is10m, e)
    ensures Updated(dac, is10m, e) == Saturated(dac + Correction(is10m, e))
  {
    GainBounds(e);
  }

  lemma GainBounds(e: int)
    ensures e == 0 ==> Correction(true, e) == 0
    ensures 0 < e ==> e <= Correction(true, e) <= 128 * e
    ensures e < 0 ==> 128 * e <= Correction(true, e) <= e
    ensures e < -7 || 7 < e ==> Correction(true, e) == 128 * e
  {
    GainIsPower(e);
  }

  /** The bound is the best possible: one more, with the DAC full, drops it to zero. */
  lemma OneMoreOverflows()
    ensures !SmallError(true, 2_096_641) && Updated(65535, true, 2_096_641) == 0
    ensures !SmallError(false, 17_891_329) && Updated(65535, false, 17_891_329) == 0
  {
    GainBounds(2_096_641);
  }

  /** Errors whose correction alone overflows 29 bits, and not so far that adding a DAC value wraps twice. */
  predicate LargeError(is10m: bool, e: int) {
    if is10m then 2_097_152 <= e <= 4_193_791 else 17_895_698 <= e <= 35_787_025
  }

  /** They drive the DAC to the opposite end. */
  lemma LargeErrorReverses(dac: Word16, is10m: bool, e: int)
    requires LargeError(is10m, e)
    ensures Updated(dac, is10m, e) == 0
    ensures Updated(dac, is10m, -e) == if dac < Correction(is10m, e) - 0x1000_0000 then 65535 else 0
  {
    GainBounds(e);
    CorrectionIsMonotone(is10m, e, e);
  }

  lemma GainGrows(e1: int, e2: int)
    requires e1 < e2
    ensures e1 * Pow2(Smaller(Magnitude(e1), 7)) < e2 * Pow2(Smaller(Magnitude(e2), 7))
  {
    GainIsPower(e1);
    GainIsPower(e2);
  }

  /** The correction is odd and strictly increasing in the error. */
  lemma CorrectionIsMonotone(is10m: bool, e1: int, e2: int)
    ensures Correction(is10m, -e1) == -Correction(is10m, e1)
    ensures e1 < e2 ==> Correction(is10m, e1) < Correction(is10m, e2)
  {
    if is10m && e1 < e2 {
      GainGrows(e1, e2);
    }
  }

  /** So the DAC never moves against a small error. */
  lemma DacFollowsError(dac: Word16, is10m: bool, e: int)
    requires SmallError(is10m, e)
    ensures var next := Updated(dac, is10m, e);
            && (0 <= e ==> dac <= next) && (e <= 0 ==> next <= dac)
            && (next == dac <==> e == 0 || (dac == 65535 && 0 < e) || (dac == 0 && e < 0))
  {
    SmallErrorIsExact(dac, is10m, e);
    CorrectionIsMonotone(is10m, 0, e);
    CorrectionIsMonotone(is10m, e, 0);
  }
}
