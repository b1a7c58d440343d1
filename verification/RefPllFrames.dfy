/**
 The reference PLL and the DAC serialiser together, in automatic mode: what
 the control loop decides is what the DAC is sent.
 */
module RefPllFrames {
  import opened Basics
  import opened RegisterMap
  import opened RefPll
  import opened RefPllInvariant
  import Ltc2630

  /** The DAC value at each cycle of a run, which is what the serialiser is clocked with. */
  function DacValues(holdoverDac: Word16, s: State, samples: seq<bool>): seq<Word16>
    decreases samples
  {
    if samples == [] then []
    else [s.loop.automaticDac] + DacValues(holdoverDac, Step(holdoverDac, s, samples[0]), samples[1..])
  }

  // ---------------------------------------------------------------------
  // The bus is idle, with the DAC up to date, whenever an update begins.

  function Positive(x: int): nat {
    if x < 0 then 0 else x
  }

  /**
   In MEASURE the time the serialiser still needs runs down with the period,
   from two frames; through an update it needs none.
   */
  predicate OnTime(n: int, d: Ltc2630.State, state: LoopState, measured: int, dac: Word16) {
    var left := Ltc2630.TimeTo(n, d, dac);
    if state.MEASURE? then left <= Positive(2 * Ltc2630.FrameTime(n) - Positive(measured - 8))
    else left == 0 && measured <= LoopAge(state)
  }

  predicate Timely(n: int, s: State, d: Ltc2630.State) {
    s.classifier.Valid() ==> OnTime(n, d, s.loop.state, s.period.measured, s.loop.automaticDac)
  }

  /** Two frames are over long before the shortest period, at every divider setting that works. */
  lemma EdgeFindsIdle(n: int, d: Ltc2630.State, measured: int, dac: Word16)
    requires Ltc2630.Inv(n, d) && OnTime(n, d, MEASURE, measured, dac) && 19_000_000 <= measured
    ensures Ltc2630.TimeTo(n, d, dac) == 0
    ensures d.phase.Idle? && d.syncN && d.lastValueValid && d.lastValue == dac
  {
    Ltc2630.StepTimeTo(n, d, dac);
  }

  /** One cycle of loop state, period and DAC value. */
  predicate LoopStep(s: State, next: State) {
    && next.period.measured == (if s.r.rising then 1 else s.period.measured + 1)
    && (s.r.rising ==> s.loop.state.MEASURE? && 19_000_000 <= s.period.measured)
    && match s.loop.state
       case MEASURE => next.loop.automaticDac == s.loop.automaticDac
                       && next.loop.state == if s.r.rising then CAPTURE else MEASURE
       case APPLY_OUTPUT => next.loop.state.MEASURE?
       case _ => next.loop.automaticDac == s.loop.automaticDac
                 && !next.loop.state.MEASURE? && LoopAge(s.loop.state) < LoopAge(next.loop.state)
  }

  lemma LoopSteps(holdoverDac: Word16, s: State, sample: bool)
    requires Inv(s) && s.classifier.Valid()
    ensures LoopStep(s, Step(holdoverDac, s, sample))
  {
    NoCounterWraps(s);
  }

  lemma StepOnTime(n: int, s: State, next: State, d: Ltc2630.State)
    requires Ltc2630.Inv(n, d) && LoopStep(s, next)
    requires OnTime(n, d, s.loop.state, s.period.measured, s.loop.automaticDac)
    ensures OnTime(n, Ltc2630.Step(n, d, s.loop.automaticDac), next.loop.state, next.period.measured, next.loop.automaticDac)
  {
    var dac := s.loop.automaticDac;
    var d' := Ltc2630.Step(n, d, dac);
    Ltc2630.StepTimeTo(n, d, dac);
    if s.r.rising {
      EdgeFindsIdle(n, d, s.period.measured, dac);
    } else if s.loop.state.APPLY_OUTPUT? {
      Ltc2630.StepInv(n, d, dac);
      Ltc2630.StepTimeTo(n, d', next.loop.automaticDac);
    }
  }

  lemma StepTimely(holdoverDac: Word16, n: int, s: State, d: Ltc2630.State, sample: bool)
    requires Inv(s) && !DirectSwitch(s.classifier, Step(holdoverDac, s, sample).classifier)
    requires Ltc2630.Inv(n, d) && Timely(n, s, d)
    ensures Timely(n, Step(holdoverDac, s, sample), Ltc2630.Step(n, d, s.loop.automaticDac))
  {
    var next := Step(holdoverDac, s, sample);
    var d' := Ltc2630.Step(n, d, s.loop.automaticDac);
    if next.classifier.Valid() {
      if s.classifier.Valid() {
        LoopSteps(holdoverDac, s, sample);
        StepOnTime(n, s, next, d);
      } else {
        Ltc2630.StepInv(n, d, s.loop.automaticDac);
        Ltc2630.StepTimeTo(n, d', next.loop.automaticDac);
      }
    }
  }

  // ---------------------------------------------------------------------
  // No value is skipped.

  /** The values of a sequence that differ from their predecessor, the first from `latest`. */
  function Changes(latest: Option<Word16>, values: seq<Word16>): seq<Word16>
    decreases values
  {
    if values == [] then []
    else (if latest == Some(values[0]) then [] else [values[0]]) + Changes(Some(values[0]), values[1..])
  }

  /** The serialiser has sent, or is sending, this value last. */
  predicate Covers(d: Ltc2630.State, value: Word16) {
    if d.phase.Idle? then d.lastValueValid && d.lastValue == value else d.transferValue == value
  }

  /** The latest input if it still waits for a frame in progress. */
  function Waiting(d: Ltc2630.State, latest: Option<Word16>): seq<Word16> {
    if latest.Some? && !Covers(d, latest.value) then [latest.value] else []
  }

  /** A value waits only while it is the holdover value, and none changes behind one that waits. */
  predicate Sending(holdoverDac: Word16, d: Ltc2630.State, latest: Option<Word16>, state: LoopState, dac: Word16) {
    match latest
    case None => d == Ltc2630.Reset()
    case Some(u) =>
      && (Covers(d, u) || (u == holdoverDac && dac == holdoverDac))
      && (dac != u ==> d.phase.Idle? || (dac == holdoverDac && state.MEASURE?))
  }

  /** The frame that an input starts, as a list. */
  function Started(d: Ltc2630.State, value: Word16): seq<Word16> {
    if Ltc2630.Triggers(d, value) then [value] else []
  }

  /** One input: what waited and what changed is what is started and what now waits. */
  lemma StepWaiting(n: int, holdoverDac: Word16, d: Ltc2630.State, latest: Option<Word16>, state: LoopState, dac: Word16)
    requires Sending(holdoverDac, d, latest, state, dac)
    ensures Waiting(d, latest) + Changes(latest, [dac])
         == Started(d, dac) + Waiting(Ltc2630.Step(n, d, dac), Some(dac))
  {
    assert Changes(Some(dac), [dac][1..]) == [];
  }

  lemma StepSending(n: int, holdoverDac: Word16, s: State, next: State, d: Ltc2630.State, latest: Option<Word16>)
    requires Ltc2630.Inv(n, d)
    requires Sending(holdoverDac, d, latest, s.loop.state, s.loop.automaticDac)
    requires if s.classifier.Valid() then
               && LoopStep(s, next)
               && OnTime(n, d, s.loop.state, s.period.measured, s.loop.automaticDac)
             else next.loop == RestingLoop(holdoverDac)
    ensures Sending(holdoverDac, Ltc2630.Step(n, d, s.loop.automaticDac), Some(s.loop.automaticDac),
                    next.loop.state, next.loop.automaticDac)
  {
    Ltc2630.StepTimeTo(n, d, s.loop.automaticDac);
  }

  /** Everything kept about PLL and serialiser. */
  predicate Together(holdoverDac: Word16, n: int, s: State, d: Ltc2630.State, latest: Option<Word16>) {
    && Inv(s) && Ltc2630.Inv(n, d) && Timely(n, s, d)
    && Sending(holdoverDac, d, latest, s.loop.state, s.loop.automaticDac)
  }

  lemma StepTogether(
    holdoverDac: Word16, n: int, s: State, d: Ltc2630.State, latest: Option<Word16>, sample: bool)
    requires Together(holdoverDac, n, s, d, latest)
    requires !DirectSwitch(s.classifier, Step(holdoverDac, s, sample).classifier)
    ensures Together(holdoverDac, n, Step(holdoverDac, s, sample), Ltc2630.Step(n, d, s.loop.automaticDac),
                     Some(s.loop.automaticDac))
  {
    StepKeepsInv(holdoverDac, s, sample);
    Ltc2630.StepInv(n, d, s.loop.automaticDac);
    StepTimely(holdoverDac, n, s, d, sample);
    if s.classifier.Valid() {
      LoopSteps(holdoverDac, s, sample);
    }
    StepSending(n, holdoverDac, s, Step(holdoverDac, s, sample), d, latest);
  }

  /** The latest input after a run. */
  function Latest(latest: Option<Word16>, values: seq<Word16>): Option<Word16> {
    if values == [] then latest else Some(values[|values| - 1])
  }

  lemma {:induction false} RunTogether(
    holdoverDac: Word16, n: int, s: State, d: Ltc2630.State, latest: Option<Word16>, samples: seq<bool>)
    requires Together(holdoverDac, n, s, d, latest) && NoDirectSwitch(holdoverDac, s, samples)
    ensures var values := DacValues(holdoverDac, s, samples);
            Together(holdoverDac, n, Run(holdoverDac, s, samples), Ltc2630.Run(n, d, values), Latest(latest, values))
    decreases samples
  {
    if samples != [] {
      var dac := s.loop.automaticDac;
      var next := Step(holdoverDac, s, samples[0]);
      var values := DacValues(holdoverDac, s, samples);
      StepTogether(holdoverDac, n, s, d, latest, samples[0]);
      RunTogether(holdoverDac, n, next, Ltc2630.Step(n, d, dac), Some(dac), samples[1..]);
      assert values[1..] == DacValues(holdoverDac, next, samples[1..]);
      assert Latest(Some(dac), values[1..]) == Latest(latest, values);
    }
  }

  lemma ChangesFirst(latest: Option<Word16>, dac: Word16, values: seq<Word16>)
    ensures Changes(latest, [dac] + values) == Changes(latest, [dac]) + Changes(Some(dac), values)
  {
    assert ([dac] + values)[1..] == values;
    assert Changes(Some(dac), [dac][1..]) == [];
  }

  lemma StartsFirst(n: int, d: Ltc2630.State, dac: Word16, values: seq<Word16>)
    ensures Ltc2630.Starts(n, d, [dac] + values) == Started(d, dac) + Ltc2630.Starts(n, Ltc2630.Step(n, d, dac), values)
  {
    assert ([dac] + values)[1..] == values;
  }

  /** Over a run, what waited and what changed is what was started and what waits at the end. */
  lemma {:induction false} ChangesAreStarted(
    holdoverDac: Word16, n: int, s: State, d: Ltc2630.State, latest: Option<Word16>, samples: seq<bool>)
    requires Together(holdoverDac, n, s, d, latest) && NoDirectSwitch(holdoverDac, s, samples)
    ensures var values := DacValues(holdoverDac, s, samples);
            Waiting(d, latest) + Changes(latest, values)
            == Ltc2630.Starts(n, d, values) + Waiting(Ltc2630.Run(n, d, values), Latest(latest, values))
    decreases samples
  {
    if samples != [] {
      var dac := s.loop.automaticDac;
      var next := Step(holdoverDac, s, samples[0]);
      var d' := Ltc2630.Step(n, d, dac);
      var rest := DacValues(holdoverDac, next, samples[1..]);
      StepTogether(holdoverDac, n, s, d, latest, samples[0]);
      ChangesAreStarted(holdoverDac, n, next, d', Some(dac), samples[1..]);
      StepWaiting(n, holdoverDac, d, latest, s.loop.state, dac);
      ChangesFirst(latest, dac, rest);
      StartsFirst(n, d, dac, rest);
      assert ([dac] + rest)[1..] == rest;
      assert Latest(Some(dac), rest) == Latest(latest, [dac] + rest);
      Balance(
        Waiting(d, latest), Changes(latest, [dac]), Changes(Some(dac), rest), Started(d, dac), Waiting(d', Some(dac)),
        Ltc2630.Starts(n, d', rest), Waiting(Ltc2630.Run(n, d', rest), Latest(Some(dac), rest)));
    }
  }

  lemma ResetTogether(holdoverDac: Word16, n: int, reference: nat)
    requires reference < 10 && Ltc2630.Divides(n)
    ensures Together(holdoverDac, n, Reset(holdoverDac, reference), Ltc2630.Reset(), None)
  {
    ResetInv(holdoverDac, reference);
  }

  /**
   From reset, in every run without a direct switch, however often the
   reference is lost: the frames the DAC hears are the values the loop gives it,
   one frame for each change, in order, at most two still to come; and at every
   divided edge of an accepted reference, before the update it causes, none.
   */
  lemma EveryValueIsSent(holdoverDac: Word16, n: int, reference: nat, samples: seq<bool>)
    requires Ltc2630.Divides(n) && reference < 10
    requires NoDirectSwitch(holdoverDac, Reset(holdoverDac, reference), samples)
    ensures var s := Run(holdoverDac, Reset(holdoverDac, reference), samples);
            var values := DacValues(holdoverDac, Reset(holdoverDac, reference), samples);
            var changes := Changes(None, values);
            var frames := Ltc2630.Listen(Ltc2630.QUIET_LINE, Ltc2630.Wave(n, Ltc2630.Reset(), values)).frames;
            && |frames| <= |changes| <= |frames| + 2
            && frames == Ltc2630.Frames(changes[..|frames|])
            && (s.classifier.Valid() && s.r.rising ==>
                  && frames == Ltc2630.Frames(changes)
                  && frames != [] && frames[|frames| - 1] == Ltc2630.Frame(s.loop.automaticDac))
  {
    var start := Reset(holdoverDac, reference);
    var values := DacValues(holdoverDac, start, samples);
    var changes := Changes(None, values);
    var d := Ltc2630.Run(n, Ltc2630.Reset(), values);
    var completed := Ltc2630.Completed(n, Ltc2630.Reset(), values);
    var waiting := Waiting(d, Latest(None, values));
    ResetTogether(holdoverDac, n, reference);
    ChangesAreCompleted(holdoverDac, n, start, samples);
    Ltc2630.HeardFromReset(n, values);
    Balances(changes, completed, Ltc2630.Underway(d), waiting);
    var s := Run(holdoverDac, start, samples);
    if s.classifier.Valid() && s.r.rising {
      EdgeFindsAll(holdoverDac, n, start, samples);
    }
  }

  /** At most two values of a balance are not completed. */
  lemma Balances(changes: seq<Word16>, completed: seq<Word16>, underway: seq<Word16>, waiting: seq<Word16>)
    requires changes == completed + underway + waiting && |underway| <= 1 && |waiting| <= 1
    ensures |completed| <= |changes| <= |completed| + 2 && completed == changes[..|completed|]
  {
  }

  /** At a divided edge of an accepted reference the last frame holds the DAC value, and none is to come. */
  lemma EdgeFindsAll(holdoverDac: Word16, n: int, start: State, samples: seq<bool>)
    requires Together(holdoverDac, n, start, Ltc2630.Reset(), None) && NoDirectSwitch(holdoverDac, start, samples)
    requires var s := Run(holdoverDac, start, samples);
             s.classifier.Valid() && s.r.rising
    ensures var s := Run(holdoverDac, start, samples);
            var values := DacValues(holdoverDac, start, samples);
            var completed := Ltc2630.Completed(n, Ltc2630.Reset(), values);
            && completed == Changes(None, values)
            && completed != [] && completed[|completed| - 1] == s.loop.automaticDac
  {
    var s := Run(holdoverDac, start, samples);
    var values := DacValues(holdoverDac, start, samples);
    var d := Ltc2630.Run(n, Ltc2630.Reset(), values);
    RunTogether(holdoverDac, n, start, Ltc2630.Reset(), None, samples);
    EdgeIsIdle(holdoverDac, n, s, d, Latest(None, values));
    ChangesAreCompleted(holdoverDac, n, start, samples);
    Ltc2630.LastValueIsLastFrame(n, Ltc2630.Reset(), values);
  }

  lemma EdgeIsIdle(holdoverDac: Word16, n: int, s: State, d: Ltc2630.State, latest: Option<Word16>)
    requires Together(holdoverDac, n, s, d, latest) && s.classifier.Valid() && s.r.rising
    ensures d.phase.Idle? && d.lastValueValid && d.lastValue == s.loop.automaticDac
    ensures Waiting(d, latest) == [] && Ltc2630.Underway(d) == []
  {
    LoopSteps(holdoverDac, s, false);
    EdgeFindsIdle(n, d, s.period.measured, s.loop.automaticDac);
  }

  lemma ChangesAreCompleted(holdoverDac: Word16, n: int, start: State, samples: seq<bool>)
    requires Together(holdoverDac, n, start, Ltc2630.Reset(), None) && NoDirectSwitch(holdoverDac, start, samples)
    ensures var values := DacValues(holdoverDac, start, samples);
            var d := Ltc2630.Run(n, Ltc2630.Reset(), values);
            Changes(None, values)
            == Ltc2630.Completed(n, Ltc2630.Reset(), values) + Ltc2630.Underway(d) + Waiting(d, Latest(None, values))
  {
    var values := DacValues(holdoverDac, start, samples);
    ChangesAreStarted(holdoverDac, n, start, Ltc2630.Reset(), None, samples);
    Ltc2630.StartsAreCompleted(n, Ltc2630.Reset(), values);
    assert [] + Changes(None, values) == Changes(None, values);
    assert [] + Ltc2630.Starts(n, Ltc2630.Reset(), values) == Ltc2630.Starts(n, Ltc2630.Reset(), values);
  }
}
