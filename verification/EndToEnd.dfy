/**
 The controller and the serialiser together: what software writes is what the
 DAC is sent, and what software reads back.
 */
module EndToEnd {
  import opened Bits
  import opened RegisterMap
  import opened VcxoControl
  import Mailbox
  import StatusReturn
  import Ltc2630

  /** The serialiser shares the 200 MHz clock and its reset. */
  datatype Board = Board(core: System, spi: Ltc2630.State)

  function BoardStep(n: int, b: Board, e: Edge): Board {
    Board(Step(b.core, e),
          if e.VcxoEdge? && !b.core.Held() then Ltc2630.Step(n, b.spi, b.core.ActiveDac(e.automaticDac)) else b.spi)
  }

  function BoardRun(n: int, b: Board, es: seq<Edge>): Board
    decreases es
  {
    if es == [] then b else BoardRun(n, BoardStep(n, b, es[0]), es[1..])
  }

  function BoardReset(): Board {
    Board(PowerOn(), Ltc2630.Reset())
  }

  /** The values of active_dac the serialiser is clocked with. */
  function DacInputs(s: System, es: seq<Edge>): seq<Word16>
    decreases es
  {
    if es == [] then []
    else
      (if es[0].VcxoEdge? && !s.Held() then [s.ActiveDac(es[0].automaticDac)] else [])
      + DacInputs(Step(s, es[0]), es[1..])
  }

  lemma {:induction false} BoardProjection(n: int, b: Board, es: seq<Edge>)
    ensures BoardRun(n, b, es) == Board(Run(b.core, es), Ltc2630.Run(n, b.spi, DacInputs(b.core, es)))
    decreases es
  {
    if es != [] {
      var next := BoardStep(n, b, es[0]);
      var rest := DacInputs(next.core, es[1..]);
      BoardProjection(n, next, es[1..]);
      if es[0].VcxoEdge? && !b.core.Held() {
        var value := b.core.ActiveDac(es[0].automaticDac);
        assert ([value] + rest)[1..] == rest;
      } else {
        assert [] + rest == rest;
      }
    }
  }

  lemma {:induction false} DacInputsConcat(s: System, es: seq<Edge>, fs: seq<Edge>)
    ensures DacInputs(s, es + fs) == DacInputs(s, es) + DacInputs(Run(s, es), fs)
    decreases es
  {
    if es == [] {
      assert es + fs == fs;
    } else {
      var next := Step(s, es[0]);
      assert (es + fs)[1..] == es[1..] + fs;
      DacInputsConcat(next, es[1..], fs);
      var head := if es[0].VcxoEdge? && !s.Held() then [s.ActiveDac(es[0].automaticDac)] else [];
      assert DacInputs(s, es + fs) == head + DacInputs(next, es[1..] + fs);
    }
  }

  lemma SettledStep(s: System, e: Edge)
    requires Settled(s) && (e.AxiEdge? ==> e.write.None?)
    ensures Settled(Step(s, e)) && Step(s, e).regs == s.regs
  {
    StepKeepsInv(s, e);
  }

  /** Once settled in manual mode, the serialiser's input is the manual value at every edge. */
  lemma {:induction false} ManualInputs(s: System, es: seq<Edge>)
    requires Settled(s) && Silent(es) && s.regs.manualMode
    ensures Settled(Run(s, es)) && Run(s, es).regs == s.regs
    ensures |DacInputs(s, es)| == VcxoEdges(es)
    ensures forall i :: 0 <= i < |DacInputs(s, es)| ==> DacInputs(s, es)[i] == s.regs.manualDac
    decreases es
  {
    if es != [] {
      SettledStep(s, es[0]);
      ManualInputs(Step(s, es[0]), es[1..]);
    }
  }

  /**
   After any history that leaves manual mode on, eighteen quiet rounds and two
   frame times later the last complete frame on the DAC's wires carries the
   register map's manual value, the bus is idle, and so it stays until the next
   write, whatever the reference PLL and the crossing samples do.
   */
  lemma ManualValueReachesDac(n: int, past: seq<Edge>, rounds: seq<seq<Edge>>, dwell: seq<Edge>)
    requires Ltc2630.Divides(n)
    requires Run(PowerOn(), past).regs.manualMode
    requires AreSilentRounds(rounds) && 18 <= |rounds|
    requires Silent(dwell) && 2 * Ltc2630.FrameTime(n) <= VcxoEdges(dwell)
    ensures var manualDac := Run(PowerOn(), past).regs.manualDac;
            var es := past + (Mailbox.Flatten(rounds) + dwell);
            var spi := BoardRun(n, BoardReset(), es).spi;
            var frames := Ltc2630.Listen(Ltc2630.QUIET_LINE,
                                         Ltc2630.Wave(n, Ltc2630.Reset(), DacInputs(PowerOn(), es))).frames;
            && spi.phase.Idle? && spi.syncN && !spi.sclk && spi.lastValue == manualDac
            && frames != [] && frames[|frames| - 1] == Ltc2630.Frame(manualDac)
  {
    var written := Run(PowerOn(), past);
    var settle := Mailbox.Flatten(rounds);
    var settled := Run(written, settle);
    PowerOnInv();
    LastWriteWins(PowerOn(), past);
    WritesSettle(written, rounds, []);
    assert settle + [] == settle;
    ManualInputs(settled, dwell);
    var es := past + (settle + dwell);
    DacInputsConcat(PowerOn(), past, settle + dwell);
    DacInputsConcat(written, settle, dwell);
    var before := DacInputs(PowerOn(), past) + DacInputs(written, settle);
    var held := DacInputs(settled, dwell);
    assert DacInputs(PowerOn(), es) == before + held;
    BoardProjection(n, BoardReset(), es);
    SerialiserHolds(n, before, held, written.regs.manualDac);
  }

  /** A bus edge that writes `data` to a register. */
  predicate Writes(e: Edge, register: nat, data: Word32) {
    e.AxiEdge? && e.write.Some? && e.write.value.address % 16 == register && e.write.value.data == data
  }

  /**
   So software sets the DAC by writing the value to register 1 and an odd number
   to register 0, whatever it wrote before.
   */
  lemma SoftwareSetsDac(
    n: int, past: seq<Edge>, value: Edge, mode: Edge, dac: Word32, on: Word32, rounds: seq<seq<Edge>>, dwell: seq<Edge>)
    requires Ltc2630.Divides(n)
    requires Writes(value, 1, dac) && Writes(mode, 0, on) && on % 2 == 1
    requires AreSilentRounds(rounds) && 18 <= |rounds|
    requires Silent(dwell) && 2 * Ltc2630.FrameTime(n) <= VcxoEdges(dwell)
    ensures var es := past + [value, mode] + (Mailbox.Flatten(rounds) + dwell);
            var frames := Ltc2630.Listen(Ltc2630.QUIET_LINE,
                                         Ltc2630.Wave(n, Ltc2630.Reset(), DacInputs(PowerOn(), es))).frames;
            && frames != [] && |frames[|frames| - 1]| == 24
            && FromBits(frames[|frames| - 1]) == 0x30_0000 + dac % 0x1_0000
  {
    var before := Run(PowerOn(), past);
    RunConcat(PowerOn(), past, [value, mode]);
    TwoEdges(before, value, mode);
    WriteByField(before.regs, value.write.value);
    WriteByField(Step(before, value).regs, mode.write.value);
    ManualValueReachesDac(n, past + [value, mode], rounds, dwell);
    Ltc2630.FrameReadsBack(dac % 0x1_0000);
  }

  lemma TwoEdges(s: System, first: Edge, second: Edge)
    ensures Run(s, [first, second]) == Step(Step(s, first), second)
  {
    assert [first, second][1..] == [second] && [second][1..] == [];
    assert Run(Step(s, first), [second]) == Run(Step(Step(s, first), second), []);
  }

  lemma SerialiserHolds(n: int, before: seq<Word16>, held: seq<Word16>, value: Word16)
    requires Ltc2630.Divides(n) && 2 * Ltc2630.FrameTime(n) <= |held|
    requires forall i :: 0 <= i < |held| ==> held[i] == value
    ensures var spi := Ltc2630.Run(n, Ltc2630.Reset(), before + held);
            var frames := Ltc2630.Listen(Ltc2630.QUIET_LINE, Ltc2630.Wave(n, Ltc2630.Reset(), before + held)).frames;
            && spi.phase.Idle? && spi.syncN && !spi.sclk && spi.lastValue == value
            && frames != [] && frames[|frames| - 1] == Ltc2630.Frame(value)
  {
    var reset := Ltc2630.Reset();
    var middle := Ltc2630.Run(n, reset, before);
    Ltc2630.RunInv(n, reset, before);
    Ltc2630.RunConcat(n, reset, before, held);
    Ltc2630.HeldInputArrives(n, middle, value, held);
    Ltc2630.LastValueIsLastFrame(n, reset, before + held);
    Ltc2630.HeardIsCompleted(n, reset, Ltc2630.QUIET_LINE, before + held);
  }

  // ---------------------------------------------------------------------
  // Read-back.

  /** The reference flags do not move. */
  predicate FlagsSteady(es: seq<Edge>, isPps: bool, is10m: bool, locked: bool) {
    forall i :: 0 <= i < |es| && es[i].VcxoEdge? ==> es[i].isPps == isPps && es[i].is10m == is10m && es[i].locked == locked
  }

  lemma {:induction false} StatusConstant(s: System, es: seq<Edge>, isPps: bool, is10m: bool, locked: bool)
    requires Settled(s) && Silent(es) && s.regs.manualMode && FlagsSteady(es, isPps, is10m, locked)
    ensures StatusReturn.Constant(StatusTrace(s, es), Status(s.regs.manualDac, isPps, is10m, locked))
    ensures IsRound(es) ==> StatusReturn.IsRound(StatusTrace(s, es))
    decreases es
  {
    ReleasedTraces(s, es);
    if IsRound(es) {
      var i :| 0 <= i < |es| && es[i].AxiEdge?;
      var j :| 0 <= j < |es| && es[j].VcxoEdge?;
      assert StatusTrace(s, es)[i].Collect? && StatusTrace(s, es)[j].Watch?;
    }
    if es != [] {
      SettledStep(s, es[0]);
      StatusConstant(Step(s, es[0]), es[1..], isPps, is10m, locked);
    }
  }

  /** The status rounds that system rounds amount to. */
  function StatusRounds(s: System, rounds: seq<seq<Edge>>): seq<seq<StatusReturn.Observation<Status>>>
    decreases rounds
  {
    if rounds == [] then []
    else [StatusTrace(s, rounds[0])] + StatusRounds(Run(s, rounds[0]), rounds[1..])
  }

  lemma {:induction false} StatusRoundsFlatten(s: System, rounds: seq<seq<Edge>>, isPps: bool, is10m: bool, locked: bool)
    requires Settled(s) && AreSilentRounds(rounds) && s.regs.manualMode
    requires forall i :: 0 <= i < |rounds| ==> FlagsSteady(rounds[i], isPps, is10m, locked)
    ensures var os := StatusRounds(s, rounds);
            var c := Status(s.regs.manualDac, isPps, is10m, locked);
            && |os| == |rounds|
            && Mailbox.Flatten(os) == StatusTrace(s, Mailbox.Flatten(rounds))
            && (forall i :: 0 <= i < |os| ==> StatusReturn.IsRound(os[i]) && StatusReturn.Constant(os[i], c))
    decreases rounds
  {
    if rounds != [] {
      StatusConstant(s, rounds[0], isPps, is10m, locked);
      ManualInputs(s, rounds[0]);
      StatusTraceConcat(s, rounds[0], Mailbox.Flatten(rounds[1..]));
      StatusRoundsFlatten(Run(s, rounds[0]), rounds[1..], isPps, is10m, locked);
    }
  }

  /**
   Settled in manual mode with steady reference flags, twenty-five more rounds
   and software reads the very word the 200 MHz domain has, after at most two
   launches, and goes on reading it.
   */
  lemma SoftwareReadsBack(s: System, rounds: seq<seq<Edge>>, after: seq<Edge>, isPps: bool, is10m: bool, locked: bool)
    requires Settled(s) && s.regs.manualMode
    requires AreSilentRounds(rounds) && 25 <= |rounds| && Silent(after)
    requires forall i :: 0 <= i < |rounds| ==> FlagsSteady(rounds[i], isPps, is10m, locked)
    requires FlagsSteady(after, isPps, is10m, locked)
    ensures Run(s, Mailbox.Flatten(rounds) + after).status.rx.word == Status(s.regs.manualDac, isPps, is10m, locked)
  {
    var settle := Mailbox.Flatten(rounds);
    var middle := Run(s, settle);
    FlattenSilent(rounds);
    ManualInputs(s, settle);
    StatusRoundsFlatten(s, rounds, isPps, is10m, locked);
    StatusConstant(middle, after, isPps, is10m, locked);
    StatusTraceConcat(s, settle, after);
    StatusProjection(s, settle + after);
    StatusReturn.ConstantDelivery(s.status, StatusRounds(s, rounds), StatusTrace(middle, after),
                                  Status(s.regs.manualDac, isPps, is10m, locked));
  }
}
