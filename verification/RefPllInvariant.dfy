/**
 What every cycle of the reference PLL keeps, as long as the classification
 never changes directly from one kind of reference to the other: no counter
 wraps, and the control loop is back in MEASURE at every divided edge.
 */
module RefPllInvariant {
  import opened Bits
  import opened RegisterMap
  import opened RefPll

  /** The classifier changes kind without passing through "no reference". */
  predicate DirectSwitch(c: Classifier, next: Classifier) {
    c.Valid() && next.Valid() && c.is10m != next.is10m
  }

  predicate ClassifierInv(c: Classifier) {
    && !(c.is10m && c.isPps)
    && (c.Valid() ==> c.seen)
    && (if c.seen then 1 <= c.count <= REF_PPS_MAX + 1 else c.count == 0)
  }

  /** A divided edge is one cycle old. */
  predicate RInv(s: State) {
    && s.r.count < s.classifier.RDivider()
    && (s.r.rising ==> s.classifier.count == 1 && s.r.count == 0)
  }

  /** The measured period lies between the least and greatest that the edges counted so far allow. */
  predicate PeriodInv(s: State) {
    var c, m := s.classifier, s.period.measured;
    if c.is10m then
      && -1_000_000 <= s.period.frequencyError <= 1_000_000
      && if s.r.rising then 19_000_000 <= m <= 21_000_000
         else 19 * s.r.count + c.count - 1 <= m <= 21 * s.r.count + c.count - 1
    else
      && -40_000 <= s.period.frequencyError <= 40_000
      && if s.r.rising then REF_PPS_MIN <= m <= REF_PPS_MAX else m == c.count - 1
  }

  /** Cycles since the divided 40 MHz clock last rose at the N divider's end. */
  function SinceN(s: State): nat {
    10 * s.n.count + (s.reference + 9) % 10
  }

  predicate NInv(s: State) {
    && s.n.count < s.classifier.NDivider()
    && (s.n.rising ==> s.n.count == 0 && s.reference == 1)
  }

  predicate LeadInv(s: State) {
    var period: int := s.classifier.ExpectedPeriod();
    && -period < s.lead.count <= 0
    && -period < s.lead.lead <= 1
    && (s.lead.enable && !s.n.rising ==> s.lead.count == 1 - SinceN(s))
  }

  /** The lead brought to the nearest reference period. */
  function PhaseOf(lead: int, period: int): int {
    if lead + period < -lead then lead + period else lead
  }

  /** The change of the DAC value that an error calls for. */
  function Correction(is10m: bool, e: int): int {
    if is10m then e * Pow2(Smaller(Magnitude(e), 7)) else 15 * e
  }

  function Magnitude(x: int): nat {
    if x < 0 then -x else x
  }

  function Smaller(x: nat, y: nat): nat {
    if x < y then x else y
  }

  /** The 10 MHz gain doubles with each unit of error up to seven. */
  lemma GainIsPower(e: int)
    ensures GainShift(e) == Smaller(Magnitude(e), 7)
    ensures Pow2(GainShift(e)) == [1, 2, 4, 8, 16, 32, 64, 128][Smaller(Magnitude(e), 7)]
  {
    assert Pow2(0) == 1 && Pow2(1) == 2 && Pow2(2) == 4 && Pow2(3) == 8;
    assert Pow2(4) == 16 && Pow2(5) == 32 && Pow2(6) == 64 && Pow2(7) == 128;
  }

  /** Phase plus frequency error of the latest divided edge. */
  function Error(s: State): int {
    PhaseOf(s.lead.lead, s.classifier.ExpectedPeriod()) + s.period.frequencyError
  }

  /** Cycles since the divided edge that started the current update. */
  function LoopAge(state: LoopState): nat {
    match state
    case MEASURE => 0
    case CAPTURE => 1
    case CAPTURE_LAG => 2
    case CAPTURE_LEAD => 2
    case CALCULATE_ERROR => 3
    case CALCULATE_10M_GAIN => 4
    case CALCULATE_ADJUSTMENT => 5
    case CALCULATE_OUTPUT => 6
    case APPLY_OUTPUT => 7
  }

  /** An update in progress began with the latest divided edge, too recently for another. */
  predicate LoopTiming(s: State) {
    var age := LoopAge(s.loop.state);
    0 < age ==> !s.r.rising && if s.classifier.is10m then s.r.count <= age else s.classifier.count <= age + 1
  }

  /** Each stage of the update holds what integer arithmetic says. */
  predicate LoopData(s: State) {
    var c, l := s.classifier, s.loop;
    var period := c.ExpectedPeriod();
    var age := LoopAge(l.state);
    && (l.state.CAPTURE_LAG? ==> s.lead.lead + period < -s.lead.lead)
    && (l.state.CAPTURE_LEAD? ==> s.lead.lead + period >= -s.lead.lead)
    && (3 <= age ==> l.phaseError == PhaseOf(s.lead.lead, period))
    && (4 <= age ==> l.combinedError == Error(s))
    && (l.state.CALCULATE_10M_GAIN? ==> c.is10m)
    && (l.state.CALCULATE_ADJUSTMENT? && c.is10m ==> l.gainShift == GainShift(Error(s)))
    && (l.state.CALCULATE_OUTPUT? ==> l.adjustment == Wrap29(Correction(c.is10m, Error(s))))
    && (l.state.APPLY_OUTPUT? ==> l.dacSum == Wrap29(l.automaticDac + Correction(c.is10m, Error(s))))
  }

  predicate Inv(s: State) {
    && ClassifierInv(s.classifier) && s.reference < 10
    && (s.classifier.Valid() ==> RInv(s) && PeriodInv(s) && NInv(s) && LeadInv(s) && LoopTiming(s) && LoopData(s))
  }

  /** In plain numbers: nothing comes near the width of its register. */
  lemma NoCounterWraps(s: State)
    requires Inv(s) && s.classifier.Valid()
    ensures s.r.count < (if s.classifier.is10m then 1_000_000 else 1) <= 0x100_0000
    ensures s.n.count < (if s.classifier.is10m then 2_000_000 else 20_000_000) <= 0x400_0000
    ensures 0 <= s.period.measured < 221_039_980 < 0x1000_0000
    ensures -200_000_000 < s.lead.count <= 0
    ensures s.r.rising ==> s.loop.state == MEASURE
    ensures s.classifier.is10m ==> -11_000_000 <= Error(s) <= 11_000_000
    ensures s.classifier.isPps ==> -100_040_000 <= Error(s) <= 100_040_000
  {
  }

  lemma ResetInv(holdoverDac: Word16, reference: nat)
    requires reference < 10
    ensures Inv(Reset(holdoverDac, reference))
  {
  }

  // ---------------------------------------------------------------------
  // One cycle, block by block.

  lemma ClassifyKeepsInv(c: Classifier, rising: bool)
    requires ClassifierInv(c)
    ensures var next := Classify(c, rising);
            && ClassifierInv(next)
            && (next.Valid() && c.Valid() && rising ==>
                  if next.is10m then 19 <= c.count <= 21 else REF_PPS_MIN <= c.count <= REF_PPS_MAX)
            && (next.Valid() && !rising ==> c.Valid() && next.is10m == c.is10m && next.count == c.count + 1)
            && (rising ==> next.count == 1)
  {
  }

  /** A cycle with an accepted reference before and after, of one kind. */
  predicate SteadyStep(holdoverDac: Word16, s: State, sample: bool) {
    var next := Step(holdoverDac, s, sample).classifier;
    Inv(s) && s.classifier.Valid() && next.Valid() && next.is10m == s.classifier.is10m
  }

  lemma StepDivider(holdoverDac: Word16, s: State, sample: bool)
    requires SteadyStep(holdoverDac, s, sample)
    ensures RInv(Step(holdoverDac, s, sample))
  {
    ClassifyKeepsInv(s.classifier, s.external.Rising());
  }

  /** Period and frequency error take the next value without wrapping. */
  lemma PeriodDoesNotWrap(holdoverDac: Word16, s: State, sample: bool)
    requires Inv(s) && s.classifier.Valid()
    ensures var next := Step(holdoverDac, s, sample).period;
            && next.measured == (if s.r.rising then 1 else s.period.measured + 1)
            && next.frequencyError == if s.r.rising then s.classifier.ExpectedPeriod() - s.period.measured
                                      else s.period.frequencyError
  {
  }

  lemma StepMeasured(holdoverDac: Word16, s: State, sample: bool)
    requires SteadyStep(holdoverDac, s, sample)
    ensures PeriodInv(Step(holdoverDac, s, sample))
  {
    if s.classifier.is10m {
      StepMeasured10m(holdoverDac, s, sample);
    } else {
      StepMeasuredPps(holdoverDac, s, sample);
    }
  }

  lemma StepMeasured10m(holdoverDac: Word16, s: State, sample: bool)
    requires SteadyStep(holdoverDac, s, sample) && s.classifier.is10m
    ensures PeriodInv(Step(holdoverDac, s, sample))
  {
    PeriodDoesNotWrap(holdoverDac, s, sample);
    ClassifyKeepsInv(s.classifier, s.external.Rising());
  }

  lemma StepMeasuredPps(holdoverDac: Word16, s: State, sample: bool)
    requires SteadyStep(holdoverDac, s, sample) && !s.classifier.is10m
    ensures PeriodInv(Step(holdoverDac, s, sample))
  {
    PeriodDoesNotWrap(holdoverDac, s, sample);
    ClassifyKeepsInv(s.classifier, s.external.Rising());
  }

  lemma StepR(holdoverDac: Word16, s: State, sample: bool)
    requires SteadyStep(holdoverDac, s, sample)
    ensures RInv(Step(holdoverDac, s, sample)) && PeriodInv(Step(holdoverDac, s, sample))
  {
    StepDivider(holdoverDac, s, sample);
    StepMeasured(holdoverDac, s, sample);
  }

  lemma StepN(holdoverDac: Word16, s: State, sample: bool)
    requires SteadyStep(holdoverDac, s, sample)
    ensures NInv(Step(holdoverDac, s, sample)) && LeadInv(Step(holdoverDac, s, sample))
  {
    ClassifyKeepsInv(s.classifier, s.external.Rising());
  }

  lemma StepTiming(holdoverDac: Word16, s: State, sample: bool)
    requires SteadyStep(holdoverDac, s, sample)
    ensures LoopTiming(Step(holdoverDac, s, sample))
  {
    ClassifyKeepsInv(s.classifier, s.external.Rising());
  }

  /** While an update is in progress its inputs do not move. */
  lemma StepInputs(holdoverDac: Word16, s: State, sample: bool)
    requires SteadyStep(holdoverDac, s, sample) && !s.r.rising
    ensures var next := Step(holdoverDac, s, sample);
            && next.lead.lead == s.lead.lead && next.period.frequencyError == s.period.frequencyError
            && Error(next) == Error(s)
  {
    ClassifyKeepsInv(s.classifier, s.external.Rising());
  }

  lemma WrapOfWrap(a: int, b: int)
    ensures Wrap29(a + Wrap29(b)) == Wrap29(a + b)
    ensures Wrap29(Wrap29(16 * b) - b) == Wrap29(15 * b)
  {
    var k := (b + 0x1000_0000) / 0x2000_0000;
    assert Wrap29(b) == b - k * 0x2000_0000;
    WrapShift(a + b, -k);
    var j := (16 * b + 0x1000_0000) / 0x2000_0000;
    assert Wrap29(16 * b) == 16 * b - j * 0x2000_0000;
    WrapShift(15 * b, -j);
  }

  lemma WrapShift(x: int, k: int)
    ensures Wrap29(x + k * 0x2000_0000) == Wrap29(x)
  {
  }

  /** Shifting and subtracting in 29 bits multiply in 29 bits. */
  lemma AdjustmentWraps(is10m: bool, e: int)
    ensures (if is10m then Wrap29(e * Pow2(GainShift(e))) else Wrap29(Wrap29(e * 16) - e)) == Wrap29(Correction(is10m, e))
  {
    WrapOfWrap(0, e);
    GainIsPower(e);
  }

  /** The loop stages alone, over fixed inputs. */
  lemma ControlData(holdoverDac: Word16, s: State)
    requires Inv(s) && s.classifier.Valid()
    ensures var l := Control(holdoverDac, s.loop, s.classifier, s.r.rising, s.lead.lead, s.period.frequencyError);
            LoopData(s.(loop := l))
  {
    NoCounterWraps(s);
    match s.loop.state {
      case CALCULATE_ADJUSTMENT => AdjustmentWraps(s.classifier.is10m, s.loop.combinedError);
      case CALCULATE_OUTPUT => WrapOfWrap(s.loop.automaticDac, Correction(s.classifier.is10m, Error(s)));
      case _ =>
    }
  }

  lemma StepData(holdoverDac: Word16, s: State, sample: bool)
    requires SteadyStep(holdoverDac, s, sample)
    ensures LoopData(Step(holdoverDac, s, sample))
  {
    if !s.r.rising {
      StepInputs(holdoverDac, s, sample);
      ControlData(holdoverDac, s);
    }
  }

  /** Every cycle without a direct switch keeps the invariant. */
  lemma StepKeepsInv(holdoverDac: Word16, s: State, sample: bool)
    requires Inv(s)
    requires !DirectSwitch(s.classifier, Step(holdoverDac, s, sample).classifier)
    ensures Inv(Step(holdoverDac, s, sample))
  {
    ClassifyKeepsInv(s.classifier, s.external.Rising());
    var next := Step(holdoverDac, s, sample);
    if next.classifier.Valid() && s.classifier.Valid() {
      StepR(holdoverDac, s, sample);
      StepN(holdoverDac, s, sample);
      StepTiming(holdoverDac, s, sample);
      StepData(holdoverDac, s, sample);
    }
  }

  /** No cycle of the run switches directly. */
  predicate NoDirectSwitch(holdoverDac: Word16, s: State, samples: seq<bool>)
    decreases samples
  {
    samples == [] ||
    var next := Step(holdoverDac, s, samples[0]);
    !DirectSwitch(s.classifier, next.classifier) && NoDirectSwitch(holdoverDac, next, samples[1..])
  }

  lemma {:induction false} RunKeepsInv(holdoverDac: Word16, s: State, samples: seq<bool>)
    requires Inv(s) && NoDirectSwitch(holdoverDac, s, samples)
    ensures Inv(Run(holdoverDac, s, samples))
    decreases samples
  {
    if samples != [] {
      StepKeepsInv(holdoverDac, s, samples[0]);
      RunKeepsInv(holdoverDac, Step(holdoverDac, s, samples[0]), samples[1..]);
    }
  }

  /** So in every run from reset without a direct switch, at every phase of the divided clock. */
  lemma RunNeverWraps(holdoverDac: Word16, reference: nat, samples: seq<bool>)
    requires reference < 10 && NoDirectSwitch(holdoverDac, Reset(holdoverDac, reference), samples)
    ensures var s := Run(holdoverDac, Reset(holdoverDac, reference), samples);
            s.classifier.Valid() ==>
              && s.r.count < (if s.classifier.is10m then 1_000_000 else 1)
              && s.n.count < (if s.classifier.is10m then 2_000_000 else 20_000_000)
              && 0 <= s.period.measured < 221_039_980
              && -200_000_000 < s.lead.count <= 0
              && (s.r.rising ==> s.loop.state == MEASURE)
              && (if s.classifier.is10m then -11_000_000 <= Error(s) <= 11_000_000
                  else -100_040_000 <= Error(s) <= 100_040_000)
  {
    var start := Reset(holdoverDac, reference);
    ResetInv(holdoverDac, reference);
    RunKeepsInv(holdoverDac, start, samples);
    if Run(holdoverDac, start, samples).classifier.Valid() {
      NoCounterWraps(Run(holdoverDac, start, samples));
    }
  }
}
