/**
 The automatic DAC value as a function of the history of divided edges: one
 correction an edge, folded from the holdover value since the reference was
 accepted.
 */
module RefPllFold {
  import opened RegisterMap
  import opened RefPll
  import opened RefPllInvariant
  import opened RefPllTheorems

  function PeriodFor(is10m: bool): nat {
    if is10m then 20_000_000 else 200_000_000
  }

  /** The error of a reference edge in the cycle after `past`: nearest phase plus shortfall of the period. */
  function ErrorAfter(is10m: bool, past: seq<Edges>, simultaneous: bool): int {
    PhaseOf(LeadOf(past, simultaneous), PeriodFor(is10m)) + PeriodFor(is10m) - PeriodOf(past)
  }

  /** All updates of a history, in order. */
  function Folded(holdoverDac: Word16, is10m: bool, history: seq<Edges>): Word16 {
    if history == [] then holdoverDac
    else
      var past, e := history[..|history| - 1], history[|history| - 1];
      var dac := Folded(holdoverDac, is10m, past);
      if e.r then Updated(dac, is10m, ErrorAfter(is10m, past, e.n)) else dac
  }

  /** Cycles after its edge for which an update is not made. */
  function Delay(is10m: bool): nat {
    if is10m then 7 else 6
  }

  /** The history whose updates are made. */
  function Settled(is10m: bool, history: seq<Edges>): seq<Edges> {
    if |history| <= Delay(is10m) then [] else history[..|history| - Delay(is10m)]
  }

  /** Cycles since the edge of the update in progress. */
  function SinceEdge(state: LoopState, is10m: bool): nat {
    if is10m || LoopAge(state) <= 3 then LoopAge(state) else LoopAge(state) - 1
  }

  /**
   Between updates the DAC value is the fold of the whole history; during one
   it is the fold up to its edge, which came that many cycles ago.  No edge
   comes before the update of the one before it is made.
   */
  predicate DacAgrees(holdoverDac: Word16, s: State, history: seq<Edges>) {
    var is10m, r := s.classifier.is10m, LatestR(history);
    if s.loop.state.MEASURE? then
      && s.loop.automaticDac == Folded(holdoverDac, is10m, history)
      && (0 <= r ==> Delay(is10m) < |history| - r)
    else
      && 0 <= r && |history| - r == SinceEdge(s.loop.state, is10m)
      && (0 <= LatestR(history[..r]) ==> Delay(is10m) < r - LatestR(history[..r]))
      && s.loop.automaticDac == Folded(holdoverDac, is10m, history[..r])
  }

  lemma {:induction false} FoldedQuiet(holdoverDac: Word16, is10m: bool, history: seq<Edges>, n: nat)
    requires LatestR(history) < n <= |history|
    ensures Folded(holdoverDac, is10m, history) == Folded(holdoverDac, is10m, history[..n])
    decreases |history|
  {
    if n == |history| {
      assert history[..n] == history;
    } else {
      var past := history[..|history| - 1];
      FoldedQuiet(holdoverDac, is10m, past, n);
      assert past[..n] == history[..n];
    }
  }

  /** At the latest reference edge of a history the fold takes one update. */
  lemma FoldedAtEdge(holdoverDac: Word16, is10m: bool, history: seq<Edges>)
    requires 0 <= LatestR(history)
    ensures var r := LatestR(history);
            Folded(holdoverDac, is10m, history)
            == Updated(Folded(holdoverDac, is10m, history[..r]), is10m, ErrorAfter(is10m, history[..r], history[r].n))
  {
    var r := LatestR(history);
    FoldedQuiet(holdoverDac, is10m, history, r + 1);
    assert history[..r + 1][..r] == history[..r];
  }

  /** The error in the registers is that of the latest reference edge. */
  lemma ErrorIsHistory(s: State, history: seq<Edges>)
    requires s.classifier.Valid() && LeadAgrees(s, history) && PeriodAgrees(s, history) && 0 <= LatestR(history)
    ensures var r := LatestR(history);
            Error(s) == ErrorAfter(s.classifier.is10m, history[..r], history[r].n)
  {
  }

  lemma HistoryStep(history: seq<Edges>, e: Edges)
    ensures var longer := history + [e];
            && LatestR(longer) == (if e.r then |history| else LatestR(history))
            && forall n :: 0 <= n <= |history| ==> longer[..n] == history[..n]
  {
    HistoryGrows(history, e);
  }

  lemma FoldedStep(holdoverDac: Word16, is10m: bool, history: seq<Edges>, e: Edges)
    requires !e.r
    ensures Folded(holdoverDac, is10m, history + [e]) == Folded(holdoverDac, is10m, history)
  {
    assert (history + [e])[..|history|] == history;
  }

  /** The reference edge, if there is one, starts an update; otherwise nothing moves. */
  lemma StepMeasuring(holdoverDac: Word16, s: State, history: seq<Edges>, sample: bool)
    requires SteadyStep(holdoverDac, s, sample) && s.loop.state.MEASURE? && DacAgrees(holdoverDac, s, history)
    ensures DacAgrees(holdoverDac, Step(holdoverDac, s, sample), history + [Edges(s.r.rising, s.n.rising)])
  {
    var e := Edges(s.r.rising, s.n.rising);
    StepUpdate(holdoverDac, s, sample);
    HistoryStep(history, e);
    if e.r {
      assert (history + [e])[..|history|] == history;
    } else {
      FoldedStep(holdoverDac, s.classifier.is10m, history, e);
    }
  }

  lemma StepUpdating(holdoverDac: Word16, s: State, history: seq<Edges>, sample: bool)
    requires SteadyStep(holdoverDac, s, sample) && !s.loop.state.MEASURE? && !s.loop.state.APPLY_OUTPUT?
    requires DacAgrees(holdoverDac, s, history)
    ensures DacAgrees(holdoverDac, Step(holdoverDac, s, sample), history + [Edges(s.r.rising, s.n.rising)])
  {
    NoCounterWraps(s);
    StepUpdate(holdoverDac, s, sample);
    HistoryStep(history, Edges(s.r.rising, s.n.rising));
  }

  /** The update that ends is that of the latest reference edge. */
  lemma StepApplying(holdoverDac: Word16, s: State, history: seq<Edges>, sample: bool)
    requires SteadyStep(holdoverDac, s, sample) && s.loop.state.APPLY_OUTPUT?
    requires LeadAgrees(s, history) && PeriodAgrees(s, history) && DacAgrees(holdoverDac, s, history)
    ensures DacAgrees(holdoverDac, Step(holdoverDac, s, sample), history + [Edges(s.r.rising, s.n.rising)])
  {
    var e := Edges(s.r.rising, s.n.rising);
    NoCounterWraps(s);
    StepUpdate(holdoverDac, s, sample);
    HistoryStep(history, e);
    FoldedStep(holdoverDac, s.classifier.is10m, history, e);
    FoldedAtEdge(holdoverDac, s.classifier.is10m, history);
    ErrorIsHistory(s, history);
    RegistersUpdate(s.loop.automaticDac, s.classifier.is10m, Error(s));
  }

  lemma StepDac(holdoverDac: Word16, s: State, history: seq<Edges>, sample: bool)
    requires SteadyStep(holdoverDac, s, sample)
    requires LeadAgrees(s, history) && PeriodAgrees(s, history) && DacAgrees(holdoverDac, s, history)
    ensures DacAgrees(holdoverDac, Step(holdoverDac, s, sample), history + [Edges(s.r.rising, s.n.rising)])
  {
    match s.loop.state {
      case MEASURE => StepMeasuring(holdoverDac, s, history, sample);
      case APPLY_OUTPUT => StepApplying(holdoverDac, s, history, sample);
      case _ => StepUpdating(holdoverDac, s, history, sample);
    }
  }

  predicate AllAgree(holdoverDac: Word16, s: State, history: seq<Edges>) {
    LeadAgrees(s, history) && PeriodAgrees(s, history) && DacAgrees(holdoverDac, s, history)
  }

  lemma StepAgrees(holdoverDac: Word16, s: State, history: seq<Edges>, sample: bool)
    requires SteadyStep(holdoverDac, s, sample) && AllAgree(holdoverDac, s, history)
    ensures AllAgree(holdoverDac, Step(holdoverDac, s, sample), history + [Edges(s.r.rising, s.n.rising)])
  {
    StepLead(holdoverDac, s, history, sample);
    StepPeriod(holdoverDac, s, history, sample);
    StepDac(holdoverDac, s, history, sample);
  }

  lemma AcceptanceAgrees(holdoverDac: Word16, s: State, sample: bool)
    requires !s.classifier.Valid()
    ensures AllAgree(holdoverDac, Step(holdoverDac, s, sample), [])
  {
  }

  lemma {:induction false} RunAgrees(holdoverDac: Word16, s: State, past: seq<Edges>, samples: seq<bool>)
    requires Inv(s) && NoDirectSwitch(holdoverDac, s, samples)
    requires s.classifier.Valid() ==> AllAgree(holdoverDac, s, past)
    ensures var end := Run(holdoverDac, s, samples);
            end.classifier.Valid() ==> AllAgree(holdoverDac, end, History(holdoverDac, s, past, samples))
    decreases samples
  {
    if samples != [] {
      var next := Step(holdoverDac, s, samples[0]);
      StepKeepsInv(holdoverDac, s, samples[0]);
      if s.classifier.Valid() {
        if next.classifier.Valid() {
          StepAgrees(holdoverDac, s, past, samples[0]);
        }
        RunAgrees(holdoverDac, next, past + [Edges(s.r.rising, s.n.rising)], samples[1..]);
      } else {
        AcceptanceAgrees(holdoverDac, s, samples[0]);
        RunAgrees(holdoverDac, next, [], samples[1..]);
      }
    }
  }

  /** Whichever it is, the fold stops where updates are still to be made. */
  lemma AgreesWithFold(holdoverDac: Word16, s: State, history: seq<Edges>)
    requires DacAgrees(holdoverDac, s, history)
    ensures s.loop.automaticDac == Folded(holdoverDac, s.classifier.is10m, Settled(s.classifier.is10m, history))
  {
    var is10m, r := s.classifier.is10m, LatestR(history);
    var n := if |history| <= Delay(is10m) then 0 else |history| - Delay(is10m);
    assert Settled(is10m, history) == history[..n];
    if s.loop.state.MEASURE? {
      FoldedQuiet(holdoverDac, is10m, history, n);
    } else {
      FoldedQuiet(holdoverDac, is10m, history[..r], n);
      assert history[..r][..n] == history[..n];
    }
  }

  /**
   In every run from reset without a direct switch, at every cycle with an
   accepted reference: the DAC value is the fold of one clamped 29-bit update an
   edge, from the holdover value and over the divided edges since the reference
   was accepted, each with the error that the history before it gives, up to the
   edges that are too recent.
   */
  lemma DacIsFold(holdoverDac: Word16, reference: nat, samples: seq<bool>)
    requires reference < 10 && NoDirectSwitch(holdoverDac, Reset(holdoverDac, reference), samples)
    ensures var s := Run(holdoverDac, Reset(holdoverDac, reference), samples);
            var history := History(holdoverDac, Reset(holdoverDac, reference), [], samples);
            s.classifier.Valid() ==>
              s.loop.automaticDac == Folded(holdoverDac, s.classifier.is10m, Settled(s.classifier.is10m, history))
  {
    var start := Reset(holdoverDac, reference);
    ResetInv(holdoverDac, reference);
    RunAgrees(holdoverDac, start, [], samples);
    if Run(holdoverDac, start, samples).classifier.Valid() {
      AgreesWithFold(holdoverDac, Run(holdoverDac, start, samples), History(holdoverDac, start, [], samples));
    }
  }

  // ---------------------------------------------------------------------
  // When the errors are small the fold is integer arithmetic.

  /** The same fold in unbounded arithmetic, clamped after each update. */
  function FoldedExactly(holdoverDac: Word16, is10m: bool, history: seq<Edges>): Word16 {
    if history == [] then holdoverDac
    else
      var past, e := history[..|history| - 1], history[|history| - 1];
      var dac := FoldedExactly(holdoverDac, is10m, past);
      if e.r then Saturated(dac + Correction(is10m, ErrorAfter(is10m, past, e.n))) else dac
  }

  predicate SmallErrors(is10m: bool, history: seq<Edges>) {
    forall i :: 0 <= i < |history| && history[i].r ==> SmallError(is10m, ErrorAfter(is10m, history[..i], history[i].n))
  }

  lemma {:induction false} SmallErrorsFoldExactly(holdoverDac: Word16, is10m: bool, history: seq<Edges>)
    requires SmallErrors(is10m, history)
    ensures Folded(holdoverDac, is10m, history) == FoldedExactly(holdoverDac, is10m, history)
    decreases |history|
  {
    if history != [] {
      var past, e := history[..|history| - 1], history[|history| - 1];
      assert forall i :: 0 <= i < |past| ==> past[..i] == history[..i];
      SmallErrorsFoldExactly(holdoverDac, is10m, past);
      if e.r {
        SmallErrorIsExact(Folded(holdoverDac, is10m, past), is10m, ErrorAfter(is10m, past, e.n));
      }
    }
  }
}
