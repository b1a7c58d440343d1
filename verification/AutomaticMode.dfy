/**
 The whole device in automatic mode, controller, PLL and serialiser: what
 software reads is what the PLL was at some moment, and the DAC values it reads
 are, in order, values that are sent.
 */
module AutomaticMode {
  import opened Basics
  import opened RegisterMap
  import EndToEnd
  import Ltc2630
  import Mailbox
  import RefPll
  import RefPllFrames
  import RefPllInvariant
  import StatusReturn
  import VcxoControl

  /** An edge of the bus clock, or of the 200 MHz clock with the reference pin sampled. */
  datatype Tick =
    | Bus(write: Option<RegisterWrite>, ackNoise: bool, statusNoise: Status, requestNoise: bool)
    | Clock(sample: bool, ackNoise: bool, controlNoise: Registers, requestNoise: bool)

  datatype Machine = Machine(board: EndToEnd.Board, pll: RefPll.State) {
    /** The PLL is being clocked. */
    predicate Runs(t: Tick) {
      t.Clock? && !board.core.Held()
    }
  }

  /** The PLL's outputs as the word that goes to the bus side. */
  function StatusOf(s: RefPll.State): Status {
    Status(s.loop.automaticDac, s.classifier.isPps, s.classifier.is10m, s.locked)
  }

  /** The controller's edge, with the wires of the PLL. */
  function EdgeOf(m: Machine, t: Tick): VcxoControl.Edge {
    match t
    case Bus(write, ackNoise, statusNoise, requestNoise) =>
      VcxoControl.AxiEdge(write, ackNoise, statusNoise, requestNoise)
    case Clock(_, ackNoise, controlNoise, requestNoise) =>
      VcxoControl.VcxoEdge(m.pll.loop.automaticDac, m.pll.classifier.isPps, m.pll.classifier.is10m, m.pll.locked,
                           ackNoise, controlNoise, requestNoise)
  }

  function Step(holdoverDac: Word16, n: int, m: Machine, t: Tick): Machine {
    Machine(EndToEnd.BoardStep(n, m.board, EdgeOf(m, t)),
            if m.Runs(t) then RefPll.Step(holdoverDac, m.pll, t.sample) else m.pll)
  }

  function Run(holdoverDac: Word16, n: int, m: Machine, ts: seq<Tick>): Machine
    decreases ts
  {
    if ts == [] then m else Run(holdoverDac, n, Step(holdoverDac, n, m, ts[0]), ts[1..])
  }

  function PowerOn(holdoverDac: Word16, reference: nat): Machine {
    Machine(EndToEnd.BoardReset(), RefPll.Reset(holdoverDac, reference))
  }

  /** What a run does to the controller. */
  function Edges(holdoverDac: Word16, n: int, m: Machine, ts: seq<Tick>): seq<VcxoControl.Edge>
    decreases ts
  {
    if ts == [] then [] else [EdgeOf(m, ts[0])] + Edges(holdoverDac, n, Step(holdoverDac, n, m, ts[0]), ts[1..])
  }

  /** What a run does to the PLL. */
  function Samples(holdoverDac: Word16, n: int, m: Machine, ts: seq<Tick>): seq<bool>
    decreases ts
  {
    if ts == [] then []
    else
      (if m.Runs(ts[0]) then [ts[0].sample] else []) + Samples(holdoverDac, n, Step(holdoverDac, n, m, ts[0]), ts[1..])
  }

  lemma BoardFirst(n: int, b: EndToEnd.Board, e: VcxoControl.Edge, es: seq<VcxoControl.Edge>)
    ensures EndToEnd.BoardRun(n, b, [e] + es) == EndToEnd.BoardRun(n, EndToEnd.BoardStep(n, b, e), es)
  {
    assert ([e] + es)[1..] == es;
  }

  lemma PllFirst(holdoverDac: Word16, s: RefPll.State, sample: bool, samples: seq<bool>)
    ensures RefPll.Run(holdoverDac, s, [sample] + samples)
         == RefPll.Run(holdoverDac, RefPll.Step(holdoverDac, s, sample), samples)
  {
    assert ([sample] + samples)[1..] == samples;
  }

  /** Board and PLL each run as they do alone. */
  lemma {:induction false} MachineProjection(holdoverDac: Word16, n: int, m: Machine, ts: seq<Tick>)
    ensures Run(holdoverDac, n, m, ts)
         == Machine(EndToEnd.BoardRun(n, m.board, Edges(holdoverDac, n, m, ts)),
                    RefPll.Run(holdoverDac, m.pll, Samples(holdoverDac, n, m, ts)))
    decreases ts
  {
    if ts != [] {
      var next := Step(holdoverDac, n, m, ts[0]);
      var samples := Samples(holdoverDac, n, next, ts[1..]);
      MachineProjection(holdoverDac, n, next, ts[1..]);
      BoardFirst(n, m.board, EdgeOf(m, ts[0]), Edges(holdoverDac, n, next, ts[1..]));
      if m.Runs(ts[0]) {
        PllFirst(holdoverDac, m.pll, ts[0].sample, samples);
      } else {
        assert [] + samples == samples;
      }
    }
  }

  // ---------------------------------------------------------------------
  // Automatic mode lasts as long as nothing is written that ends it.

  /** No write sets the manual mode bit. */
  predicate NeverManual(ts: seq<Tick>) {
    forall i :: 0 <= i < |ts| ==> !SetsManual(ts[i])
  }

  predicate SetsManual(t: Tick) {
    t.Bus? && t.write.Some? && t.write.value.address % 16 == REG_CONTROL && t.write.value.data % 2 == 1
  }

  /** No word with the manual mode bit is anywhere on its way. */
  predicate Automatic(s: VcxoControl.System) {
    && VcxoControl.Inv(s)
    && !s.regs.manualMode && !s.control.tx.mailbox.manualMode && !s.control.rx.word.manualMode
  }

  lemma PowerOnAutomatic()
    ensures Automatic(VcxoControl.PowerOn())
  {
    VcxoControl.PowerOnInv();
  }

  lemma StepAutomatic(m: Machine, t: Tick)
    requires Automatic(m.board.core) && !SetsManual(t)
    ensures Automatic(VcxoControl.Step(m.board.core, EdgeOf(m, t)))
  {
    var s := m.board.core;
    VcxoControl.StepKeepsInv(s, EdgeOf(m, t));
    match t {
      case Bus(write, ackNoise, _, _) =>
        Mailbox.StepInv(s.control, Mailbox.SendTick(VcxoControl.ControlOffer(s.regs, write), ackNoise));
        VcxoControl.OfferIsNewRegisterMap(s.regs, write);
      case Clock(_, _, controlNoise, requestNoise) =>
        Mailbox.StepInv(s.control, Mailbox.ReceiveTick(controlNoise, requestNoise));
    }
  }

  /** The PLL's status at each cycle of a run. */
  function Snapshots(holdoverDac: Word16, s: RefPll.State, samples: seq<bool>): seq<Status>
    decreases samples
  {
    if samples == [] then []
    else [StatusOf(s)] + Snapshots(holdoverDac, RefPll.Step(holdoverDac, s, samples[0]), samples[1..])
  }

  lemma SnapshotsFirst(holdoverDac: Word16, s: RefPll.State, sample: bool, samples: seq<bool>)
    ensures var next := RefPll.Step(holdoverDac, s, sample);
            && Snapshots(holdoverDac, s, [sample] + samples) == [StatusOf(s)] + Snapshots(holdoverDac, next, samples)
            && RefPllFrames.DacValues(holdoverDac, s, [sample] + samples)
               == [s.loop.automaticDac] + RefPllFrames.DacValues(holdoverDac, next, samples)
  {
    assert ([sample] + samples)[1..] == samples;
  }

  lemma {:induction false} SnapshotsAreValues(holdoverDac: Word16, s: RefPll.State, samples: seq<bool>)
    ensures var values := RefPllFrames.DacValues(holdoverDac, s, samples);
            var snapshots := Snapshots(holdoverDac, s, samples);
            |values| == |samples| == |snapshots| && forall i :: 0 <= i < |values| ==> values[i] == snapshots[i].activeDac
    decreases samples
  {
    if samples != [] {
      SnapshotsAreValues(holdoverDac, RefPll.Step(holdoverDac, s, samples[0]), samples[1..]);
    }
  }

  /** The wires the status link watches and the values the serialiser is clocked with, one edge at a time. */
  lemma WiresFirst(s: VcxoControl.System, e: VcxoControl.Edge, es: seq<VcxoControl.Edge>)
    ensures var next := VcxoControl.Step(s, e);
            var watched := e.VcxoEdge? && !s.Held();
            && StatusReturn.History(VcxoControl.StatusTrace(s, [e] + es))
               == (if watched then [VcxoControl.CurrentStatus(s, e)] else [])
                  + StatusReturn.History(VcxoControl.StatusTrace(next, es))
            && EndToEnd.DacInputs(s, [e] + es)
               == (if watched then [s.ActiveDac(e.automaticDac)] else []) + EndToEnd.DacInputs(next, es)
  {
    var rest := VcxoControl.StatusTrace(VcxoControl.Step(s, e), es);
    var os := VcxoControl.StatusObservations(s, e);
    assert ([e] + es)[1..] == es;
    assert VcxoControl.StatusTrace(s, [e] + es) == os + rest;
    if os == [] {
      assert os + rest == rest;
    } else {
      assert (os + rest)[1..] == rest;
    }
  }

  /** In automatic mode both are the PLL's outputs. */
  lemma {:induction false} WiresArePll(holdoverDac: Word16, n: int, m: Machine, ts: seq<Tick>)
    requires Automatic(m.board.core) && NeverManual(ts)
    ensures var es := Edges(holdoverDac, n, m, ts);
            var samples := Samples(holdoverDac, n, m, ts);
            && StatusReturn.History(VcxoControl.StatusTrace(m.board.core, es)) == Snapshots(holdoverDac, m.pll, samples)
            && EndToEnd.DacInputs(m.board.core, es) == RefPllFrames.DacValues(holdoverDac, m.pll, samples)
    decreases ts
  {
    if ts != [] {
      var next := Step(holdoverDac, n, m, ts[0]);
      StepAutomatic(m, ts[0]);
      WiresArePll(holdoverDac, n, next, ts[1..]);
      var samples := Samples(holdoverDac, n, next, ts[1..]);
      WiresFirst(m.board.core, EdgeOf(m, ts[0]), Edges(holdoverDac, n, next, ts[1..]));
      if m.Runs(ts[0]) {
        SnapshotsFirst(holdoverDac, m.pll, ts[0].sample, samples);
      } else {
        assert [] + samples == samples;
        assert [] + Snapshots(holdoverDac, m.pll, samples) == Snapshots(holdoverDac, m.pll, samples);
        assert [] + RefPllFrames.DacValues(holdoverDac, m.pll, samples)
            == RefPllFrames.DacValues(holdoverDac, m.pll, samples);
      }
    }
  }

  // ---------------------------------------------------------------------
  // What software reads.

  /** The status words that reach the bus side in a run from power-on. */
  function Read(es: seq<VcxoControl.Edge>): seq<Status> {
    var status := VcxoControl.PowerOn().status;
    Mailbox.Captured(status, StatusReturn.AsEvents(status, VcxoControl.StatusTrace(VcxoControl.PowerOn(), es)))
  }

  lemma {:induction false} SnapshotAt(holdoverDac: Word16, s: RefPll.State, samples: seq<bool>, t: nat)
    requires t < |samples|
    ensures t < |Snapshots(holdoverDac, s, samples)|
    ensures var then' := RefPll.Run(holdoverDac, s, samples[..t]);
            Snapshots(holdoverDac, s, samples)[t] == StatusOf(then')
    decreases t
  {
    if t == 0 {
      assert samples[..t] == [];
    } else {
      var next := RefPll.Step(holdoverDac, s, samples[0]);
      SnapshotAt(holdoverDac, next, samples[1..], t - 1);
      assert samples[..t][0] == samples[0] && samples[..t][1..] == samples[1..][..t - 1];
    }
  }

  lemma ReadsAreTaken(holdoverDac: Word16, n: int, reference: nat, ts: seq<Tick>)
    requires NeverManual(ts)
    ensures var start := PowerOn(holdoverDac, reference);
            exists times :: StatusReturn.StrictlyIncreasing(times)
              && StatusReturn.TakenAt(Read(Edges(holdoverDac, n, start, ts)),
                                      Snapshots(holdoverDac, start.pll, Samples(holdoverDac, n, start, ts)), times)
  {
    var start := PowerOn(holdoverDac, reference);
    PowerOnAutomatic();
    WiresArePll(holdoverDac, n, start, ts);
    VcxoControl.StatusIsTearFree(Edges(holdoverDac, n, start, ts));
  }

  /** At the cycles `times` of a run of the PLL its DAC value, kind of reference and lock are those of the words. */
  predicate WereTrue(words: seq<Status>, times: seq<nat>, holdoverDac: Word16, s: RefPll.State, samples: seq<bool>) {
    && |times| == |words|
    && forall k :: 0 <= k < |words| ==>
         && times[k] < |samples|
         && var pll := RefPll.Run(holdoverDac, s, samples[..times[k]]);
            && words[k].activeDac == pll.loop.automaticDac
            && words[k].isPps == pll.classifier.isPps
            && words[k].is10m == pll.classifier.is10m
            && words[k].locked == pll.locked
  }

  /**
   Each word read is the PLL's DAC value and flags of one and the same cycle,
   these cycles come strictly in order, and the register holds the last word.
   */
  lemma ReadsAreSnapshots(holdoverDac: Word16, n: int, reference: nat, ts: seq<Tick>)
    requires NeverManual(ts)
    ensures var start := PowerOn(holdoverDac, reference);
            var read := Read(Edges(holdoverDac, n, start, ts));
            var samples := Samples(holdoverDac, n, start, ts);
            && (exists times :: StatusReturn.StrictlyIncreasing(times)
                  && WereTrue(read, times, holdoverDac, RefPll.Reset(holdoverDac, reference), samples))
            && Run(holdoverDac, n, start, ts).board.core.status.rx.word
               == (if read == [] then Status(0, false, false, false) else read[|read| - 1])
  {
    var start := PowerOn(holdoverDac, reference);
    var es := Edges(holdoverDac, n, start, ts);
    var read, samples := Read(es), Samples(holdoverDac, n, start, ts);
    ReadsAreTaken(holdoverDac, n, reference, ts);
    var times :| StatusReturn.StrictlyIncreasing(times)
                 && StatusReturn.TakenAt(read, Snapshots(holdoverDac, start.pll, samples), times);
    SnapshotsAreValues(holdoverDac, start.pll, samples);
    forall k | 0 <= k < |read|
      ensures times[k] < |samples| && read[k] == StatusOf(RefPll.Run(holdoverDac, start.pll, samples[..times[k]]))
    {
      SnapshotAt(holdoverDac, start.pll, samples, times[k]);
    }
    assert WereTrue(read, times, holdoverDac, start.pll, samples);
    VcxoControl.StatusIsTearFree(es);
    MachineProjection(holdoverDac, n, start, ts);
    EndToEnd.BoardProjection(n, start.board, es);
  }

  // ---------------------------------------------------------------------
  // The frames of the values read.

  /** The changes up to a cycle are the first of all changes, and the last of them is its value. */
  lemma {:induction false} ChangesUpTo(latest: Option<Word16>, values: seq<Word16>, t: nat)
    requires t < |values|
    ensures var early := RefPllFrames.Changes(latest, values[..t + 1]);
            && early <= RefPllFrames.Changes(latest, values)
            && (if early == [] then latest == Some(values[t]) else early[|early| - 1] == values[t])
    decreases t
  {
    var first, rest := values[0], values[1..];
    assert values[..t + 1][0] == first && values[..t + 1][1..] == rest[..t];
    if t == 0 {
      assert rest[..t] == [];
    } else {
      ChangesUpTo(Some(first), rest, t - 1);
    }
  }

  /** Which of the changes is the value at cycle `t`. */
  function FrameOf(values: seq<Word16>, t: nat): (k: nat)
    requires t < |values|
    ensures k < |RefPllFrames.Changes(None, values)| && RefPllFrames.Changes(None, values)[k] == values[t]
  {
    ChangesUpTo(None, values, t);
    |RefPllFrames.Changes(None, values[..t + 1])| - 1
  }

  lemma LaterFrame(values: seq<Word16>, t: nat, u: nat)
    requires t <= u < |values|
    ensures FrameOf(values, t) <= FrameOf(values, u)
  {
    ChangesUpTo(None, values[..u + 1], t);
    assert values[..u + 1][..t + 1] == values[..t + 1];
  }

  predicate Nondecreasing(at: seq<nat>) {
    forall i, j :: 0 <= i <= j < |at| ==> at[i] <= at[j]
  }

  /** The DAC values of the words are, in this order, these changes. */
  predicate ValuesAt(read: seq<Status>, changes: seq<Word16>, at: seq<nat>) {
    && |at| == |read| && Nondecreasing(at)
    && forall i :: 0 <= i < |at| ==> at[i] < |changes| && changes[at[i]] == read[i].activeDac
  }

  lemma SnapshotsHaveFrames(values: seq<Word16>, snapshots: seq<Status>, read: seq<Status>, times: seq<nat>)
    requires |values| == |snapshots| && forall i :: 0 <= i < |values| ==> values[i] == snapshots[i].activeDac
    requires StatusReturn.StrictlyIncreasing(times) && StatusReturn.TakenAt(read, snapshots, times)
    ensures exists at :: ValuesAt(read, RefPllFrames.Changes(None, values), at)
  {
    var at := seq(|times|, i requires 0 <= i < |times| => FrameOf(values, times[i]));
    forall i, j | 0 <= i <= j < |at|
      ensures at[i] <= at[j]
    {
      LaterFrame(values, times[i], times[j]);
    }
    assert ValuesAt(read, RefPllFrames.Changes(None, values), at);
  }

  /**
   In every run from power-on in automatic mode without a direct switch, the DAC
   values software reads are, in order, values the DAC is sent: the frames heard
   are the changes of the value, at most two of them still to come, and each
   word read carries one of these, never an earlier one than the word before.
   */
  lemma ReadValuesAreSent(holdoverDac: Word16, n: int, reference: nat, ts: seq<Tick>)
    requires NeverManual(ts) && Ltc2630.Divides(n) && reference < 10
    requires var start := PowerOn(holdoverDac, reference);
             RefPllInvariant.NoDirectSwitch(holdoverDac, start.pll, Samples(holdoverDac, n, start, ts))
    ensures var start := PowerOn(holdoverDac, reference);
            var es := Edges(holdoverDac, n, start, ts);
            var inputs := EndToEnd.DacInputs(start.board.core, es);
            var changes := RefPllFrames.Changes(None, inputs);
            var frames := Ltc2630.Listen(Ltc2630.QUIET_LINE, Ltc2630.Wave(n, Ltc2630.Reset(), inputs)).frames;
            && |frames| <= |changes| <= |frames| + 2 && frames == Ltc2630.Frames(changes[..|frames|])
            && exists at :: ValuesAt(Read(es), changes, at)
  {
    var start := PowerOn(holdoverDac, reference);
    var samples := Samples(holdoverDac, n, start, ts);
    var snapshots := Snapshots(holdoverDac, start.pll, samples);
    var read := Read(Edges(holdoverDac, n, start, ts));
    PowerOnAutomatic();
    WiresArePll(holdoverDac, n, start, ts);
    ReadsAreTaken(holdoverDac, n, reference, ts);
    RefPllFrames.EveryValueIsSent(holdoverDac, n, reference, samples);
    SnapshotsAreValues(holdoverDac, start.pll, samples);
    var times :| StatusReturn.StrictlyIncreasing(times) && StatusReturn.TakenAt(read, snapshots, times);
    SnapshotsHaveFrames(RefPllFrames.DacValues(holdoverDac, start.pll, samples), snapshots, read, times);
  }
}
