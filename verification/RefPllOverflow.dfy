/**
 Runs of the PLL from reset in which an update overflows: with a reference at
 the fast edge of what the classifier accepts, of either kind, the phase error
 grows from one divided edge to the next until the DAC jumps the wrong way.
 As in `RefPllPins`, `zero` is cycle 0, a parameter to keep runs whole.
 */
module RefPllOverflow {
  import opened RegisterMap
  import opened RefPll
  import opened RefPllInvariant
  import opened RefPllTheorems
  import opened RefPllPins

  /** Sample clock cycles between edges of the reference pin, the least accepted. */
  function Spacing(is10m: bool): nat {
    if is10m then REF_10M_MIN else REF_PPS_MIN
  }

  function FastPin(is10m: bool): Pin {
    (t: int) => 0 <= t && t % Spacing(is10m) == 0
  }

  /** Cycles between divided edges of the reference. */
  function Lap(is10m: bool): nat {
    if is10m then 19_000_000 else 199_960_000
  }

  /** By how much that falls short of the expected period. */
  function Gap(is10m: bool): nat {
    if is10m then 1_000_000 else 40_000
  }

  /** The phase gained by the `k`-th divided edge. */
  function Gained(is10m: bool, k: nat): nat {
    if is10m then 1_000_000 * k else 40_000 * k
  }

  /** The divided edge whose update overflows. */
  function OverflowEdge(is10m: bool): nat {
    if is10m then 2 else 447
  }

  /** The cycle from which the reference is accepted. */
  function AcceptedAt(is10m: bool): nat {
    Spacing(is10m) + 4
  }

  /** The cycle of the `k`-th divided edge; the zeroth is the acceptance. */
  function EdgeAt(is10m: bool, k: nat): nat {
    AcceptedAt(is10m) + if is10m then 19_000_000 * k else 199_960_000 * k
  }

  // ---------------------------------------------------------------------
  // In cycle `i` of lap `k`, everything is a function of `k` and `i`; `start`
  // is what the N divider had counted at the acceptance.

  type Count = c: nat | c < 10

  /** Reference edges counted, and the cycles since the last. */
  predicate Counts(is10m: bool, c: Classifier, r: Divider, i: nat) {
    && c == Classifier(true, c.count, is10m, !is10m) && 1 <= c.count <= Spacing(is10m)
    && if is10m then r.count < RDIV_10M && i == 19 * r.count + c.count - 1 else r.count == 0 && i == c.count - 1
  }

  predicate Accepted(is10m: bool, s: State, k: nat, i: nat) {
    Sampled(s, FastPin(is10m), EdgeAt(is10m, k) + i) && Counts(is10m, s.classifier, s.r, i)
  }

  predicate LapN(is10m: bool, s: State, k: nat, i: nat, start: Count) {
    var period, gained := if is10m then PFD_PERIOD_10M else PFD_PERIOD_PPS, Gained(is10m, k);
    && SinceN(s) == (if i + start < gained then period - gained + i + start else i + start - gained)
    && (s.n.rising <==> 0 < k && i + start == gained)
  }

  predicate LapPeriod(is10m: bool, s: State, k: nat, i: nat) {
    && s.period.measured == (if 0 < k && i == 0 then Lap(is10m) else i)
    && s.period.frequencyError == (if k == 0 || (k == 1 && i == 0) then 0 else Gap(is10m))
  }

  predicate LapLead(is10m: bool, s: State, k: nat, i: nat, start: Count) {
    s.lead.enable <==> if i == 0 then 2 <= k else 0 < k && Gained(is10m, k) < i + start
  }

  predicate OnLap(is10m: bool, s: State, k: nat, i: nat, start: Count) {
    && Inv(s) && Accepted(is10m, s, k, i) && i < Lap(is10m)
    && (s.r.rising <==> 0 < k && i == 0)
    && LapN(is10m, s, k, i, start) && LapPeriod(is10m, s, k, i) && LapLead(is10m, s, k, i, start)
  }

  lemma SpacingDivides(is10m: bool, x: int, q: int, c: int)
    requires x == (if is10m then 19 * q + c else 199_960_000 * q + c) && 1 <= c <= Spacing(is10m)
    ensures x % Spacing(is10m) == 0 <==> c == Spacing(is10m)
  {
  }

  /** The next edge is seen when the classifier has counted the spacing out. */
  lemma EdgeIsSeen(is10m: bool, s: State, k: nat, i: nat)
    requires Accepted(is10m, s, k, i)
    ensures s.external.Rising() <==> s.classifier.count == Spacing(is10m)
  {
    var q := if is10m then 1 + 1_000_000 * k + s.r.count else 1 + k;
    var t := EdgeAt(is10m, k) + i;
    StepSampled(0, s, FastPin(is10m), t);
    SpacingDivides(is10m, t - 3, q, s.classifier.count);
    SpacingDivides(is10m, t - 4, if s.classifier.count == 1 then q - 1 else q,
                   if s.classifier.count == 1 then Spacing(is10m) else s.classifier.count - 1);
  }

  // ---------------------------------------------------------------------
  // One cycle, within a lap or from its end to the start of the next.

  lemma StepCounts(is10m: bool, c: Classifier, r: Divider, rising: bool, k: nat, i: nat, k': nat, i': nat)
    requires Counts(is10m, c, r, i) && (rising <==> c.count == Spacing(is10m)) && Follows(Lap(is10m), k, i, k', i')
    ensures var next := Divide(r, true, rising, c.RDivider(), 0x100_0000);
            Counts(is10m, Classify(c, rising), next, i') && (next.rising <==> i' == 0)
  {
  }

  lemma StepDate(is10m: bool, k: nat, i: nat, k': nat, i': nat)
    requires Follows(Lap(is10m), k, i, k', i')
    ensures EdgeAt(is10m, k') + i' == EdgeAt(is10m, k) + i + 1
  {
  }

  lemma StepAccepted(
    holdoverDac: Word16, is10m: bool, s: State, next: State, k: nat, i: nat, k': nat, i': nat)
    requires Accepted(is10m, s, k, i) && i < Lap(is10m) && Follows(Lap(is10m), k, i, k', i')
    requires next == Step(holdoverDac, s, FastPin(is10m)(EdgeAt(is10m, k) + i))
    ensures Accepted(is10m, next, k', i') && (next.r.rising <==> i' == 0)
  {
    EdgeIsSeen(is10m, s, k, i);
    StepSampled(holdoverDac, s, FastPin(is10m), EdgeAt(is10m, k) + i);
    StepDate(is10m, k, i, k', i');
    StepCounts(is10m, s.classifier, s.r, s.external.Rising(), k, i, k', i');
  }

  /** The N divider's count of cycles goes round once every expected period. */
  lemma StepCounted(holdoverDac: Word16, s: State, sample: bool)
    requires Inv(s) && s.classifier.Valid()
    ensures var next := Step(holdoverDac, s, sample);
            && SinceN(next) == (if SinceN(s) + 1 == s.classifier.ExpectedPeriod() then 0 else SinceN(s) + 1)
            && (next.n.rising <==> SinceN(next) == 0)
  {
  }

  lemma StepLapN(
    holdoverDac: Word16, is10m: bool, s: State, sample: bool, k: nat, i: nat, k': nat, i': nat, start: Count)
    requires Inv(s) && s.classifier.Valid() && s.classifier.is10m == is10m
    requires i < Lap(is10m) && k' <= OverflowEdge(is10m) && Follows(Lap(is10m), k, i, k', i')
    requires LapN(is10m, s, k, i, start)
    ensures LapN(is10m, Step(holdoverDac, s, sample), k', i', start)
  {
    StepCounted(holdoverDac, s, sample);
  }

  lemma StepLapPeriod(is10m: bool, s: State, next: State, k: nat, i: nat, k': nat, i': nat)
    requires i < Lap(is10m) && Follows(Lap(is10m), k, i, k', i')
    requires LapPeriod(is10m, s, k, i) && (s.r.rising <==> 0 < k && i == 0)
    requires next.period == Measure(s.period, true, s.r.rising, if is10m then PFD_PERIOD_10M else PFD_PERIOD_PPS)
    ensures LapPeriod(is10m, next, k', i')
  {
  }

  lemma StepLapLead(is10m: bool, s: State, next: State, k: nat, i: nat, k': nat, i': nat, start: Count)
    requires i < Lap(is10m) && k' <= OverflowEdge(is10m) && Follows(Lap(is10m), k, i, k', i')
    requires LapLead(is10m, s, k, i, start) && (s.r.rising <==> 0 < k && i == 0)
    requires s.n.rising <==> 0 < k && i + start == Gained(is10m, k)
    requires next.lead == Follow(s.lead, true, s.r.rising, s.n.rising)
    ensures LapLead(is10m, next, k', i', start)
  {
  }

  lemma StepLap(
    holdoverDac: Word16, is10m: bool, s: State, next: State, sample: bool, k: nat, i: nat, k': nat, i': nat, start: Count)
    requires OnLap(is10m, s, k, i, start) && k' <= OverflowEdge(is10m) && Follows(Lap(is10m), k, i, k', i')
    requires next == Step(holdoverDac, s, sample) && sample == FastPin(is10m)(EdgeAt(is10m, k) + i)
    ensures OnLap(is10m, next, k', i', start) && SteadyStep(holdoverDac, s, sample)
  {
    StepAccepted(holdoverDac, is10m, s, next, k, i, k', i');
    OneSteady(holdoverDac, s, sample, is10m);
    StepLapN(holdoverDac, is10m, s, sample, k, i, k', i', start);
    StepLapPeriod(is10m, s, next, k, i, k', i');
    StepLapLead(is10m, s, next, k, i, k', i', start);
  }

  // ---------------------------------------------------------------------
  // From reset to the acceptance, and lap by lap.

  lemma FastPinWaits(is10m: bool, to: nat)
    requires to == Spacing(is10m) + 3
    ensures forall t: int :: t < to ==> (SeenAt(FastPin(is10m), t) <==> t == 3)
  {
    forall t: int | t < to
      ensures SeenAt(FastPin(is10m), t) <==> t == 3
    {
      if 3 <= t {
        assert (t - 3) % Spacing(is10m) == t - 3;
      }
    }
  }

  /** What the N divider has counted when the reference is accepted. */
  function StartCount(is10m: bool, phase: nat): Count {
    ((phase + AcceptedAt(is10m)) % 10 + 9) % 10
  }

  /** The second edge accepts the reference. */
  lemma Acceptance(holdoverDac: Word16, is10m: bool, s: State, t: nat, phase: nat)
    requires Waiting(s, FastPin(is10m), t, phase) && t + 1 == AcceptedAt(is10m)
    ensures OnLap(is10m, Step(holdoverDac, s, FastPin(is10m)(t)), 0, 0, StartCount(is10m, phase))
  {
    WaitingInv(s, FastPin(is10m), t, phase);
    StepKeepsInv(holdoverDac, s, FastPin(is10m)(t));
    AcceptedHere(holdoverDac, is10m, s, t, phase);
  }

  lemma AcceptedHere(holdoverDac: Word16, is10m: bool, s: State, t: nat, phase: nat)
    requires Waiting(s, FastPin(is10m), t, phase) && t + 1 == AcceptedAt(is10m)
    ensures var next := Step(holdoverDac, s, FastPin(is10m)(t));
            && Accepted(is10m, next, 0, 0) && next.r == Divider(0, false) && next.n == Divider(0, false)
            && next.period == Period(0, 0) && next.lead == Lead(0, false, 0)
            && SinceN(next) == StartCount(is10m, phase)
  {
    StepSampled(holdoverDac, s, FastPin(is10m), t);
    CountOn(phase, t);
    assert SeenAt(FastPin(is10m), t);
  }

  lemma RunToAcceptance(holdoverDac: Word16, is10m: bool, zero: nat, t: nat, phase: nat)
    requires zero == 0 && phase < 10 && t + 1 == AcceptedAt(is10m)
    ensures OnLap(is10m, Run(holdoverDac, Reset(holdoverDac, phase), Pins(FastPin(is10m), zero, t + 1)), zero, zero,
                  StartCount(is10m, phase))
  {
    FastPinWaits(is10m, t);
    RunWaiting(holdoverDac, FastPin(is10m), zero, t, phase);
    OneMore(holdoverDac, Reset(holdoverDac, phase), FastPin(is10m), zero, t);
    Acceptance(holdoverDac, is10m, Run(holdoverDac, Reset(holdoverDac, phase), Pins(FastPin(is10m), zero, t)), t, phase);
  }

  function Laps(is10m: bool, start: Count): (State, nat, nat) -> bool {
    (s: State, k: nat, i: nat) => OnLap(is10m, s, k, i, start)
  }

  function Edges(is10m: bool): nat -> nat {
    (k: nat) => EdgeAt(is10m, k)
  }

  lemma LapsAreDated(is10m: bool)
    ensures forall k: nat, i: nat, k': nat, i': nat :: Follows(Lap(is10m), k, i, k', i') ==>
              Edges(is10m)(k') + i' == Edges(is10m)(k) + i + 1
  {
    forall k: nat, i: nat, k': nat, i': nat | Follows(Lap(is10m), k, i, k', i')
      ensures EdgeAt(is10m, k') + i' == EdgeAt(is10m, k) + i + 1
    {
      StepDate(is10m, k, i, k', i');
    }
  }

  lemma LapsAreKept(holdoverDac: Word16, is10m: bool, start: Count)
    ensures KeepsLaps(holdoverDac, FastPin(is10m), Edges(is10m), Laps(is10m, start), Lap(is10m), OverflowEdge(is10m))
  {
    LapsAreDated(is10m);
    forall s: State, k: nat, i: nat, k': nat, i': nat
      | OnLap(is10m, s, k, i, start) && Follows(Lap(is10m), k, i, k', i') && k' <= OverflowEdge(is10m)
      ensures OnLap(is10m, Step(holdoverDac, s, FastPin(is10m)(EdgeAt(is10m, k) + i)), k', i', start)
    {
      var sample := FastPin(is10m)(EdgeAt(is10m, k) + i);
      StepLap(holdoverDac, is10m, s, Step(holdoverDac, s, sample), sample, k, i, k', i', start);
    }
  }

  /** From the acceptance, whatever came before, to any cycle up to the end of the last lap. */
  lemma RunToLap(holdoverDac: Word16, is10m: bool, s: State, zero: nat, k: nat, i: nat, start: Count)
    requires zero == 0 && k <= OverflowEdge(is10m) && i < Lap(is10m)
    requires Laps(is10m, start)(Run(holdoverDac, s, Pins(FastPin(is10m), zero, Edges(is10m)(zero))), zero, zero)
    ensures Laps(is10m, start)(Run(holdoverDac, s, Pins(FastPin(is10m), zero, Edges(is10m)(k) + i)), k, i)
  {
    LapsAreKept(holdoverDac, is10m, start);
    RunLaps(holdoverDac, FastPin(is10m), Edges(is10m), Laps(is10m, start), Lap(is10m), OverflowEdge(is10m), s, zero, k, i);
  }

  lemma LapsBegin(holdoverDac: Word16, is10m: bool, zero: nat, phase: nat)
    requires zero == 0 && phase < 10
    ensures Laps(is10m, StartCount(is10m, phase))(
              Run(holdoverDac, Reset(holdoverDac, phase), Pins(FastPin(is10m), zero, Edges(is10m)(zero))), zero, zero)
  {
    RunToAcceptance(holdoverDac, is10m, zero, AcceptedAt(is10m) - 1, phase);
    assert Edges(is10m)(zero) == AcceptedAt(is10m);
  }

  /** From reset, at every phase of the divided clock and with either reference. */
  lemma RunIsLaps(holdoverDac: Word16, is10m: bool, zero: nat, k: nat, i: nat, phase: nat)
    requires zero == 0 && k <= OverflowEdge(is10m) && i < Lap(is10m) && phase < 10
    ensures OnLap(is10m, Run(holdoverDac, Reset(holdoverDac, phase), Pins(FastPin(is10m), zero, EdgeAt(is10m, k) + i)), k, i,
                  StartCount(is10m, phase))
  {
    LapsBegin(holdoverDac, is10m, zero, phase);
    RunToLap(holdoverDac, is10m, Reset(holdoverDac, phase), zero, k, i, StartCount(is10m, phase));
  }

  // ---------------------------------------------------------------------
  // The error at each divided edge, and what the last one does.

  lemma ErrorAtEdge(holdoverDac: Word16, is10m: bool, s: State, k: nat, zero: nat, sample: bool, start: Count)
    requires OnLap(is10m, s, k, zero, start) && zero == 0 && 2 <= k <= OverflowEdge(is10m)
    ensures s.r.rising && Error(Step(holdoverDac, s, sample)) == Gained(is10m, k + 1) - start
  {
    var next := Step(holdoverDac, s, sample);
    assert s.lead.count == 1 - SinceN(s);
    assert next.lead.lead == 0 - SinceN(s);
    assert next.period.frequencyError == Gap(is10m);
    assert next.classifier.ExpectedPeriod() == s.classifier.ExpectedPeriod() by {
      EdgeIsSeen(is10m, s, k, zero);
    }
  }

  /** Nothing else happens while the update of the last edge is made. */
  lemma UpdateIsSteady(holdoverDac: Word16, is10m: bool, s: State, zero: nat, edge: nat, n: nat, start: Count)
    requires OnLap(is10m, s, OverflowEdge(is10m), zero, start) && zero == 0 && edge == EdgeAt(is10m, OverflowEdge(is10m)) && n <= 8
    ensures SteadyRun(holdoverDac, s, Pins(FastPin(is10m), edge, n))
  {
    LastLapIsKept(holdoverDac, is10m, edge, start, n);
    StaysSteady(holdoverDac, FastPin(is10m), edge, LastLap(is10m, start), n, s, zero, edge, n);
  }

  function LastLap(is10m: bool, start: Count): (State, nat) -> bool {
    (s: State, i: nat) => OnLap(is10m, s, OverflowEdge(is10m), i, start)
  }

  lemma LastLapIsKept(holdoverDac: Word16, is10m: bool, edge: nat, start: Count, to: nat)
    requires edge == EdgeAt(is10m, OverflowEdge(is10m)) && to < Lap(is10m)
    ensures KeepsSteady(holdoverDac, FastPin(is10m), edge, LastLap(is10m, start), to)
  {
    forall s: State, i: nat | OnLap(is10m, s, OverflowEdge(is10m), i, start) && i < to
      ensures SteadyStep(holdoverDac, s, FastPin(is10m)(i + edge))
      ensures OnLap(is10m, Step(holdoverDac, s, FastPin(is10m)(i + edge)), OverflowEdge(is10m), i + 1, start)
    {
      var sample := FastPin(is10m)(i + edge);
      StepInLap(holdoverDac, is10m, s, Step(holdoverDac, s, sample), sample, OverflowEdge(is10m), edge, i, start);
    }
  }

  lemma StepInLap(
    holdoverDac: Word16, is10m: bool, s: State, next: State, sample: bool, k: nat, edge: nat, i: nat, start: Count)
    requires OnLap(is10m, s, k, i, start) && k <= OverflowEdge(is10m) && edge == EdgeAt(is10m, k) && i + 1 < Lap(is10m)
    requires next == Step(holdoverDac, s, sample) && sample == FastPin(is10m)(i + edge)
    ensures SteadyStep(holdoverDac, s, sample) && OnLap(is10m, next, k, i + 1, start)
  {
    assert i + edge == EdgeAt(is10m, k) + i;
    StepLap(holdoverDac, is10m, s, next, sample, k, i, k, i + 1, start);
  }

  /** Cycles from a divided edge to the end of its update. */
  function UpdateTime(is10m: bool): nat {
    if is10m then 8 else 7
  }

  /** A divided edge with a positive error for which integer arithmetic asks for full scale, and which drops the DAC to zero. */
  predicate Reverses(holdoverDac: Word16, is10m: bool, s: State, samples: seq<bool>, error: int) {
    && s.classifier.Valid() && s.classifier.is10m == is10m && s.r.rising
    && samples != [] && Error(Step(holdoverDac, s, samples[0])) == error > 0
    && Saturated(s.loop.automaticDac + Correction(is10m, error)) == 65535
    && Run(holdoverDac, s, samples).loop.automaticDac == 0
  }

  lemma LargeErrorAtEdge(holdoverDac: Word16, is10m: bool, s: State, samples: seq<bool>, error: int)
    requires Inv(s) && s.classifier.Valid() && s.classifier.is10m == is10m && s.r.rising
    requires SteadyRun(holdoverDac, s, samples) && |samples| == UpdateTime(is10m)
    requires Error(Step(holdoverDac, s, samples[0])) == error && LargeError(is10m, error)
    ensures Reverses(holdoverDac, is10m, s, samples, error)
  {
    EdgeUpdatesDac(holdoverDac, s, samples);
    LargeErrorReverses(s.loop.automaticDac, is10m, error);
    GainBounds(error);
  }

  lemma OverflowEdgeReverses(
    holdoverDac: Word16, is10m: bool, s: State, zero: nat, edge: nat, samples: seq<bool>, error: int, start: Count)
    requires OnLap(is10m, s, OverflowEdge(is10m), zero, start) && zero == 0 && edge == EdgeAt(is10m, OverflowEdge(is10m))
    requires samples == Pins(FastPin(is10m), edge, UpdateTime(is10m))
    requires error == (if is10m then 3_000_000 else 17_920_000) - start
    ensures Reverses(holdoverDac, is10m, s, samples, error)
  {
    ErrorAtEdge(holdoverDac, is10m, s, OverflowEdge(is10m), zero, samples[0], start);
    UpdateIsSteady(holdoverDac, is10m, s, zero, edge, UpdateTime(is10m), start);
    LargeErrorAtEdge(holdoverDac, is10m, s, samples, error);
  }

  /**
   The run: with 10 MHz the second divided edge, 38,000,023 cycles after reset,
   and with PPS the 447th, seven minutes and a half after it, finds an error for
   which integer arithmetic asks for full scale, and drops the DAC to zero.
   */
  lemma OverflowIsReached(holdoverDac: Word16, is10m: bool, phase: nat)
    requires phase < 10
    ensures var t := EdgeAt(is10m, OverflowEdge(is10m));
            var s := Run(holdoverDac, Reset(holdoverDac, phase), Pins(FastPin(is10m), 0, t));
            Reverses(holdoverDac, is10m, s, Pins(FastPin(is10m), t, UpdateTime(is10m)),
                     (if is10m then 3_000_000 else 17_920_000) - StartCount(is10m, phase))
  {
    RunIsLaps(holdoverDac, is10m, 0, OverflowEdge(is10m), 0, phase);
    var t := EdgeAt(is10m, OverflowEdge(is10m));
    assert t + 0 == t;
    OverflowEdgeReverses(holdoverDac, is10m, Run(holdoverDac, Reset(holdoverDac, phase), Pins(FastPin(is10m), 0, t)), 0, t,
                     Pins(FastPin(is10m), t, UpdateTime(is10m)),
                     (if is10m then 3_000_000 else 17_920_000) - StartCount(is10m, phase), StartCount(is10m, phase));
  }
}
