/**
 The two clock domains of the controller, joined by a control mailbox one way
 and a status mailbox the other.  Edges of the two clocks interleave freely.
 */
module VcxoControl {
  import opened Basics
  import opened RegisterMap
  import opened Mailbox
  import StatusReturn

  // ---------------------------------------------------------------------
  // The composed system as a state machine over clock edges.

  datatype Edge =
    | AxiEdge(write: Option<RegisterWrite>, ackNoise: bool, statusNoise: Status, requestNoise: bool)
    | VcxoEdge(automaticDac: Word16, isPps: bool, is10m: bool, locked: bool,
               ackNoise: bool, controlNoise: Registers, requestNoise: bool)

  /** `release` is the 200 MHz domain's reset; its last stage holds that domain in reset. */
  datatype System = System(regs: Registers, control: Link<Registers>, status: Link<Status>, release: Sync3) {
    predicate Held() {
      release.s2
    }

    function Received(): Registers {
      control.rx.word
    }

    function ActiveDac(automaticDac: Word16): Word16 {
      if Received().manualMode then Received().manualDac else automaticDac
    }
  }

  function PowerOn(): System {
    System(CLEARED, Mailbox.Reset(CLEARED), Mailbox.Reset(NO_STATUS), Sync3(true, true, true))
  }

  /** The word a bus write offers to the control mailbox: the registers with the written field replaced. */
  function ControlOffer(r: Registers, write: Option<RegisterWrite>): Option<Registers> {
    if write.None? then None
    else
      var register, data := write.value.address % 16, write.value.data;
      if register == REG_CONTROL then Some(Registers(r.referenceSelect, r.manualDac, data % 2 == 1))
      else if register == REG_MANUAL then Some(Registers(r.referenceSelect, data % 0x1_0000, r.manualMode))
      else if register == REG_REFERENCE then Some(Registers(data % 4, r.manualDac, r.manualMode))
      else None
  }

  function CurrentStatus(s: System, e: Edge): Status
    requires e.VcxoEdge?
  {
    Status(s.ActiveDac(e.automaticDac), e.isPps, e.is10m, e.locked)
  }

  /** What an edge means to the control link; nothing while the receiver is held in reset. */
  function ControlEvents(s: System, e: Edge): seq<Event<Registers>> {
    match e
    case AxiEdge(write, ackNoise, _, _) => [SendTick(ControlOffer(s.regs, write), ackNoise)]
    case VcxoEdge(_, _, _, _, _, busNoise, requestNoise) =>
      if s.Held() then [] else [ReceiveTick(busNoise, requestNoise)]
  }

  /** What an edge means to the status link. */
  function StatusObservations(s: System, e: Edge): seq<StatusReturn.Observation<Status>> {
    match e
    case AxiEdge(_, _, busNoise, requestNoise) => [StatusReturn.Collect(busNoise, requestNoise)]
    case VcxoEdge(_, _, _, _, ackNoise, _, _) =>
      if s.Held() then [] else [StatusReturn.Watch(CurrentStatus(s, e), ackNoise)]
  }

  function Step(s: System, e: Edge): System {
    match e
    case AxiEdge(write, ackNoise, busNoise, requestNoise) =>
      System(AfterEdge(s.regs, write),
             Mailbox.Step(s.control, SendTick(ControlOffer(s.regs, write), ackNoise)),
             Mailbox.Step(s.status, ReceiveTick(busNoise, requestNoise)),
             s.release)
    case VcxoEdge(_, _, _, _, ackNoise, busNoise, requestNoise) =>
      if s.Held() then s.(release := s.release.Shift(false))
      else
        System(s.regs,
               Mailbox.Step(s.control, ReceiveTick(busNoise, requestNoise)),
               Mailbox.Step(s.status,
                            SendTick(StatusReturn.Offer(CurrentStatus(s, e), s.status.tx.mailbox), ackNoise)),
               s.release.Shift(false))
  }

  function Run(s: System, es: seq<Edge>): System
    decreases es
  {
    if es == [] then s else Run(Step(s, es[0]), es[1..])
  }

  function ControlTrace(s: System, es: seq<Edge>): seq<Event<Registers>>
    decreases es
  {
    if es == [] then [] else ControlEvents(s, es[0]) + ControlTrace(Step(s, es[0]), es[1..])
  }

  function StatusTrace(s: System, es: seq<Edge>): seq<StatusReturn.Observation<Status>>
    decreases es
  {
    if es == [] then [] else StatusObservations(s, es[0]) + StatusTrace(Step(s, es[0]), es[1..])
  }

  /** The register map after each bus clock edge. */
  function RegisterHistory(s: System, es: seq<Edge>): seq<Registers>
    decreases es
  {
    if es == [] then []
    else
      var next := Step(s, es[0]);
      (if es[0].AxiEdge? then [next.regs] else []) + RegisterHistory(next, es[1..])
  }

  lemma {:induction false} RunConcat(s: System, es: seq<Edge>, fs: seq<Edge>)
    ensures Run(s, es + fs) == Run(Run(s, es), fs)
    decreases es
  {
    if es == [] {
      assert es + fs == fs;
    } else {
      assert (es + fs)[1..] == es[1..] + fs;
      RunConcat(Step(s, es[0]), es[1..], fs);
    }
  }

  lemma {:induction false} ControlTraceConcat(s: System, es: seq<Edge>, fs: seq<Edge>)
    ensures ControlTrace(s, es + fs) == ControlTrace(s, es) + ControlTrace(Run(s, es), fs)
    decreases es
  {
    if es == [] {
      assert es + fs == fs;
    } else {
      var next := Step(s, es[0]);
      assert (es + fs)[1..] == es[1..] + fs;
      ControlTraceConcat(next, es[1..], fs);
      assert ControlTrace(s, es + fs) == ControlEvents(s, es[0]) + ControlTrace(next, es[1..] + fs);
    }
  }

  lemma {:induction false} StatusTraceConcat(s: System, es: seq<Edge>, fs: seq<Edge>)
    ensures StatusTrace(s, es + fs) == StatusTrace(s, es) + StatusTrace(Run(s, es), fs)
    decreases es
  {
    if es == [] {
      assert es + fs == fs;
    } else {
      var next := Step(s, es[0]);
      assert (es + fs)[1..] == es[1..] + fs;
      StatusTraceConcat(next, es[1..], fs);
      assert StatusTrace(s, es + fs) == StatusObservations(s, es[0]) + StatusTrace(next, es[1..] + fs);
    }
  }

  lemma ControlStep(s: System, e: Edge)
    ensures Step(s, e).control == Mailbox.Run(s.control, ControlEvents(s, e))
  {
    var es := ControlEvents(s, e);
    if es != [] {
      assert Mailbox.Run(s.control, es) == Mailbox.Run(Mailbox.Step(s.control, es[0]), []);
    }
  }

  /** The control half of any run is a run of the mailbox protocol. */
  lemma {:induction false} ControlProjection(s: System, es: seq<Edge>)
    ensures Run(s, es).control == Mailbox.Run(s.control, ControlTrace(s, es))
    decreases es
  {
    if es != [] {
      ControlStep(s, es[0]);
      ControlProjection(Step(s, es[0]), es[1..]);
      Mailbox.RunConcat(s.control, ControlEvents(s, es[0]), ControlTrace(Step(s, es[0]), es[1..]));
    }
  }

  lemma StatusStep(s: System, e: Edge)
    ensures Step(s, e).status == Mailbox.Run(s.status, StatusReturn.AsEvents(s.status, StatusObservations(s, e)))
  {
    var os := StatusObservations(s, e);
    if os != [] {
      var event := StatusReturn.AsEvent(s.status, os[0]);
      assert StatusReturn.AsEvents(s.status, os) == [event];
      assert Mailbox.Run(s.status, [event]) == Mailbox.Run(Mailbox.Step(s.status, event), []);
    }
  }

  /** The status half of any run is a run of the watching sender. */
  lemma {:induction false} StatusProjection(s: System, es: seq<Edge>)
    ensures Run(s, es).status == Mailbox.Run(s.status, StatusReturn.AsEvents(s.status, StatusTrace(s, es)))
    decreases es
  {
    if es != [] {
      var next := Step(s, es[0]);
      var os := StatusObservations(s, es[0]);
      StatusStep(s, es[0]);
      StatusProjection(next, es[1..]);
      StatusReturn.AsEventsConcat(s.status, os, StatusTrace(next, es[1..]));
      Mailbox.RunConcat(s.status, StatusReturn.AsEvents(s.status, os),
                        StatusReturn.AsEvents(next.status, StatusTrace(next, es[1..])));
    }
  }

  // ---------------------------------------------------------------------
  // Invariant and last-write-wins.

  predicate Inv(s: System) {
    && Mailbox.Inv(s.control)
    && StatusReturn.StatusInv(s.status)
    && s.control.tx.Intended() == s.regs
    && (s.release.s0 ==> s.release.s1) && (s.release.s1 ==> s.release.s2)
  }

  /** A write offers exactly the register map it leaves behind; any other edge leaves the map alone. */
  lemma OfferIsNewRegisterMap(r: Registers, write: Option<RegisterWrite>)
    ensures var offer := ControlOffer(r, write);
            if offer.Some? then offer.value == AfterEdge(r, write) else AfterEdge(r, write) == r
  {
  }

  lemma SenderIntends<W>(tx: Sender<W>, offer: Option<W>, ackSample: bool)
    ensures SenderTick(tx, offer, ackSample).Intended() == if offer.Some? then offer.value else tx.Intended()
  {
  }

  lemma StepKeepsInv(s: System, e: Edge)
    requires Inv(s)
    ensures Inv(Step(s, e))
  {
    match e
    case AxiEdge(write, ackNoise, busNoise, requestNoise) =>
      var event := SendTick(ControlOffer(s.regs, write), ackNoise);
      Mailbox.StepInv(s.control, event);
      OfferIsNewRegisterMap(s.regs, write);
      SenderIntends(s.control.tx, ControlOffer(s.regs, write),
                    if s.control.backMoved then ackNoise else s.control.rx.ack);
      StatusReturn.StatusStepInv(s.status, StatusReturn.Collect(busNoise, requestNoise));
    case VcxoEdge(_, _, _, _, ackNoise, busNoise, requestNoise) =>
      if !s.Held() {
        Mailbox.StepInv(s.control, ReceiveTick(busNoise, requestNoise));
        StatusReturn.StatusStepInv(s.status, StatusReturn.Watch(CurrentStatus(s, e), ackNoise));
      }
  }

  /** In every reachable state the queued word if dirty, otherwise the mailbox, is the register map. */
  lemma {:induction false} LastWriteWins(s: System, es: seq<Edge>)
    requires Inv(s)
    ensures Inv(Run(s, es))
    ensures Run(s, es).control.tx.Intended() == Run(s, es).regs
    decreases es
  {
    if es != [] {
      StepKeepsInv(s, es[0]);
      LastWriteWins(Step(s, es[0]), es[1..]);
    }
  }

  // ---------------------------------------------------------------------
  // Control delivery.

  /** For each control launch, the bus clock edge at which it happened. */
  function ControlLaunchTimes(s: System, now: nat, es: seq<Edge>): seq<nat>
    decreases es
  {
    if es == [] then []
    else
      var next := Step(s, es[0]);
      (if next.control.tx.request != s.control.tx.request then [now] else [])
      + ControlLaunchTimes(next, if es[0].AxiEdge? then now + 1 else now, es[1..])
  }

  lemma LaunchCarriesRegisterMap(s: System, e: Edge)
    requires Inv(s)
    ensures var next := Step(s, e);
            && Launched(s.control, ControlEvents(s, e))
               == (if next.control.tx.request != s.control.tx.request then [next.control.tx.mailbox] else [])
            && (next.control.tx.request != s.control.tx.request ==>
                  e.AxiEdge? && next.control.tx.mailbox == next.regs)
  {
    StepKeepsInv(s, e);
    ControlStep(s, e);
    var es := ControlEvents(s, e);
    if es != [] {
      assert Launched(s.control, es)
          == (if Mailbox.Step(s.control, es[0]).tx.request != s.control.tx.request
              then [Mailbox.Step(s.control, es[0]).tx.mailbox] else []) + Launched(Mailbox.Step(s.control, es[0]), []);
    }
  }

  lemma RegisterHistoryAdvances(s: System, es: seq<Edge>, history: seq<Registers>, now: nat)
    requires es != [] && now <= |history| && history[now..] == RegisterHistory(s, es)
    ensures var next := Step(s, es[0]);
            if es[0].VcxoEdge? then history[now..] == RegisterHistory(next, es[1..])
            else now < |history| && history[now] == next.regs && history[now + 1..] == RegisterHistory(next, es[1..])
  {
    var next := Step(s, es[0]);
    assert es[0].AxiEdge? ==> RegisterHistory(s, es) == [next.regs] + RegisterHistory(next, es[1..]);
  }

  lemma ControlLaunchedFirst(s: System, now: nat, es: seq<Edge>)
    requires Inv(s) && es != []
    ensures var next := Step(s, es[0]);
            var words := Launched(next.control, ControlTrace(next, es[1..]));
            var times := ControlLaunchTimes(next, if es[0].AxiEdge? then now + 1 else now, es[1..]);
            var launch := next.control.tx.request != s.control.tx.request;
            && Launched(s.control, ControlTrace(s, es)) == (if launch then [next.control.tx.mailbox] + words else words)
            && ControlLaunchTimes(s, now, es) == (if launch then [now] + times else times)
            && (launch ==> es[0].AxiEdge? && next.control.tx.mailbox == next.regs)
  {
    var next := Step(s, es[0]);
    LaunchCarriesRegisterMap(s, es[0]);
    ControlStep(s, es[0]);
    Mailbox.RunConcat(s.control, ControlEvents(s, es[0]), ControlTrace(next, es[1..]));
  }

  lemma FirstLaunchIsDated(s: System, history: seq<Registers>, now: nat, es: seq<Edge>)
    requires Inv(s) && es != []
    requires now <= |history| && history[now..] == RegisterHistory(s, es)
    requires var next := Step(s, es[0]);
             var after := if es[0].AxiEdge? then now + 1 else now;
             StatusReturn.Dated(Launched(next.control, ControlTrace(next, es[1..])), history,
                                ControlLaunchTimes(next, after, es[1..]), after)
    ensures StatusReturn.Dated(Launched(s.control, ControlTrace(s, es)), history, ControlLaunchTimes(s, now, es), now)
  {
    var next := Step(s, es[0]);
    var after := if es[0].AxiEdge? then now + 1 else now;
    ControlLaunchedFirst(s, now, es);
    RegisterHistoryAdvances(s, es, history, now);
    StatusReturn.DatedWith(
      next.control.tx.request != s.control.tx.request, next.control.tx.mailbox, now,
      Launched(next.control, ControlTrace(next, es[1..])), history, ControlLaunchTimes(next, after, es[1..]), now,
      Launched(s.control, ControlTrace(s, es)), ControlLaunchTimes(s, now, es));
  }

  lemma {:induction false} LaunchesAreRegisterMaps(s: System, history: seq<Registers>, now: nat, es: seq<Edge>)
    requires Inv(s)
    requires now <= |history| && history[now..] == RegisterHistory(s, es)
    ensures StatusReturn.Dated(Launched(s.control, ControlTrace(s, es)), history, ControlLaunchTimes(s, now, es), now)
    decreases es
  {
    if es != [] {
      StepKeepsInv(s, es[0]);
      RegisterHistoryAdvances(s, es, history, now);
      LaunchesAreRegisterMaps(Step(s, es[0]), history, if es[0].AxiEdge? then now + 1 else now, es[1..]);
      FirstLaunchIsDated(s, history, now, es);
    }
  }

  lemma ControlFrom(s: System, es: seq<Edge>)
    requires Inv(s) && InFlight(s.control) == []
    ensures var events := ControlTrace(s, es);
            var captured := Captured(s.control, events);
            var launched := Launched(s.control, events);
            && captured <= launched && |launched| <= |captured| + 1
            && Run(s, es).control.rx.word == (if captured == [] then s.control.rx.word else captured[|captured| - 1])
  {
    var events := ControlTrace(s, es);
    ControlProjection(s, es);
    Conservation(s.control, events);
    OutputIsLastCapture(s.control, events);
    assert Launched(s.control, events) == Captured(s.control, events) + InFlight(Run(s, es).control);
  }

  /**
   Tear-free control.  Whatever the interleaving and whatever each crossing
   sample reads, the control words loaded in the 200 MHz domain are register
   maps that existed, in strictly increasing order of time, each loaded once,
   and at most the last launch is outstanding.
   */
  lemma ControlIsTearFree(s: System, es: seq<Edge>)
    requires Inv(s) && InFlight(s.control) == []
    ensures var events := ControlTrace(s, es);
            var captured := Captured(s.control, events);
            var launched := Launched(s.control, events);
            && captured <= launched && |launched| <= |captured| + 1
            && (exists times :: StatusReturn.StrictlyIncreasing(times)
                  && StatusReturn.TakenAt(captured, RegisterHistory(s, es), times))
            && Run(s, es).control.rx.word == (if captured == [] then s.control.rx.word else captured[|captured| - 1])
  {
    ControlFrom(s, es);
    LaunchesAreRegisterMaps(s, RegisterHistory(s, es), 0, es);
    StatusReturn.PrefixDated(Captured(s.control, ControlTrace(s, es)), Launched(s.control, ControlTrace(s, es)),
                             RegisterHistory(s, es), ControlLaunchTimes(s, 0, es), 0);
  }

  lemma PowerOnInv()
    ensures Inv(PowerOn()) && InFlight(PowerOn().control) == [] && InFlight(PowerOn().status) == []
  {
    ResetInv(CLEARED);
    ResetInv(NO_STATUS);
  }

  /** The status words software sees are values the 200 MHz domain really had, in strictly increasing order of time. */
  lemma StatusIsTearFree(es: seq<Edge>)
    ensures var observations := StatusTrace(PowerOn(), es);
            var events := StatusReturn.AsEvents(PowerOn().status, observations);
            var captured := Captured(PowerOn().status, events);
            && (exists times :: StatusReturn.StrictlyIncreasing(times)
                  && StatusReturn.TakenAt(captured, StatusReturn.History(observations), times))
            && Run(PowerOn(), es).status.rx.word == (if captured == [] then NO_STATUS else captured[|captured| - 1])
  {
    var observations := StatusTrace(PowerOn(), es);
    StatusProjection(PowerOn(), es);
    StatusReturn.CollectedWordsAreHistory(NO_STATUS, observations);
    ResetInv(NO_STATUS);
    OutputIsLastCapture(PowerOn().status, StatusReturn.AsEvents(PowerOn().status, observations));
  }

  // ---------------------------------------------------------------------
  // Settling once software stops writing.

  predicate Silent(es: seq<Edge>) {
    forall i :: 0 <= i < |es| && es[i].AxiEdge? ==> es[i].write.None?
  }

  predicate IsRound(es: seq<Edge>) {
    && (exists i :: 0 <= i < |es| && es[i].AxiEdge?)
    && (exists i :: 0 <= i < |es| && es[i].VcxoEdge?)
  }

  predicate AreSilentRounds(rounds: seq<seq<Edge>>) {
    forall i :: 0 <= i < |rounds| ==> IsRound(rounds[i]) && Silent(rounds[i])
  }

  /** How many 200 MHz edges the reset release still takes. */
  function HeldEdges(s: System): nat {
    if s.release.s0 then 3 else if s.release.s1 then 2 else if s.release.s2 then 1 else 0
  }

  function VcxoEdges(es: seq<Edge>): nat {
    if es == [] then 0 else (if es[0].VcxoEdge? then 1 else 0) + VcxoEdges(es[1..])
  }

  lemma {:induction false} HeldEdgesCountDown(s: System, es: seq<Edge>)
    requires (s.release.s0 ==> s.release.s1) && (s.release.s1 ==> s.release.s2)
    ensures HeldEdges(Run(s, es)) == if HeldEdges(s) <= VcxoEdges(es) then 0 else HeldEdges(s) - VcxoEdges(es)
    decreases es
  {
    if es != [] {
      HeldEdgesCountDown(Step(s, es[0]), es[1..]);
    }
  }

  /** From power-on the 200 MHz domain is held in reset for exactly three of its edges, with every register clear. */
  lemma HeldForThree(es: seq<Edge>)
    ensures Run(PowerOn(), es).Held() <==> VcxoEdges(es) < 3
    ensures PowerOn().regs == PowerOn().Received() == Registers(0, 0, false)
    ensures PowerOn().status.rx.word == Status(0, false, false, false)
  {
    HeldEdgesCountDown(PowerOn(), es);
    ReleaseShifts(PowerOn(), es);
  }

  lemma {:induction false} ReleaseShifts(s: System, es: seq<Edge>)
    requires (s.release.s0 ==> s.release.s1) && (s.release.s1 ==> s.release.s2)
    ensures Run(s, es).Held() <==> 0 < HeldEdges(Run(s, es))
    decreases es
  {
    if es != [] {
      ReleaseShifts(Step(s, es[0]), es[1..]);
    }
  }

  lemma {:induction false} SilentRun(s: System, es: seq<Edge>)
    requires Inv(s) && Silent(es)
    ensures Run(s, es).regs == s.regs
    ensures HeldEdges(Run(s, es)) <= HeldEdges(s)
    ensures (exists i :: 0 <= i < |es| && es[i].VcxoEdge?) && 0 < HeldEdges(s) ==> HeldEdges(Run(s, es)) < HeldEdges(s)
    ensures Quiet(ControlTrace(s, es))
    decreases es
  {
    if es != [] {
      StepKeepsInv(s, es[0]);
      SilentRun(Step(s, es[0]), es[1..]);
      assert forall i :: 1 <= i < |es| ==> es[i] == es[1..][i - 1];
    }
  }

  /** Once released, an edge of either clock is an edge of both links. */
  lemma {:induction false} ReleasedTraces(s: System, es: seq<Edge>)
    requires Inv(s) && !s.Held()
    ensures var control := ControlTrace(s, es);
            && |control| == |es|
            && (forall i :: 0 <= i < |es| ==> es[i].AxiEdge? == control[i].SendTick?)
    ensures var status := StatusTrace(s, es);
            && |status| == |es|
            && (forall i :: 0 <= i < |es| ==> es[i].VcxoEdge? == status[i].Watch?)
    decreases es
  {
    if es != [] {
      StepKeepsInv(s, es[0]);
      ReleasedTraces(Step(s, es[0]), es[1..]);
      assert forall i :: 1 <= i < |es| ==> es[i] == es[1..][i - 1];
    }
  }

  /** Three rounds release the 200 MHz domain. */
  lemma {:induction false} Release(s: System, rounds: seq<seq<Edge>>)
    requires Inv(s) && AreSilentRounds(rounds) && HeldEdges(s) <= |rounds|
    ensures !Run(s, Flatten(rounds)).Held()
    ensures Silent(Flatten(rounds))
    decreases rounds
  {
    FlattenSilent(rounds);
    if rounds == [] {
    } else if HeldEdges(s) == 0 {
      SilentRun(s, Flatten(rounds));
    } else {
      SilentRun(s, rounds[0]);
      LastWriteWins(s, rounds[0]);
      RunConcat(s, rounds[0], Flatten(rounds[1..]));
      Release(Run(s, rounds[0]), rounds[1..]);
    }
  }

  lemma {:induction false} FlattenSilent(rounds: seq<seq<Edge>>)
    requires AreSilentRounds(rounds)
    ensures Silent(Flatten(rounds))
  {
    if rounds != [] {
      FlattenSilent(rounds[1..]);
    }
  }

  lemma {:induction false} FlattenConcat<T>(xs: seq<seq<T>>, ys: seq<seq<T>>)
    ensures Flatten(xs + ys) == Flatten(xs) + Flatten(ys)
  {
    if xs == [] {
      assert xs + ys == ys;
    } else {
      assert (xs + ys)[1..] == xs[1..] + ys;
      FlattenConcat(xs[1..], ys);
    }
  }

  /** The control rounds that system rounds amount to. */
  function ControlRounds(s: System, rounds: seq<seq<Edge>>): seq<seq<Event<Registers>>>
    decreases rounds
  {
    if rounds == [] then []
    else [ControlTrace(s, rounds[0])] + ControlRounds(Run(s, rounds[0]), rounds[1..])
  }

  lemma ControlRound(s: System, es: seq<Edge>)
    requires Inv(s) && !s.Held() && IsRound(es) && Silent(es)
    ensures Mailbox.IsRound(ControlTrace(s, es)) && Quiet(ControlTrace(s, es))
  {
    ReleasedTraces(s, es);
    SilentRun(s, es);
    var i :| 0 <= i < |es| && es[i].AxiEdge?;
    var j :| 0 <= j < |es| && es[j].VcxoEdge?;
    assert ControlTrace(s, es)[i].SendTick? && ControlTrace(s, es)[j].ReceiveTick?;
  }

  lemma {:induction false} ControlRoundsFlatten(s: System, rounds: seq<seq<Edge>>)
    requires Inv(s) && !s.Held() && AreSilentRounds(rounds)
    ensures var cs := ControlRounds(s, rounds);
            && |cs| == |rounds|
            && Flatten(cs) == ControlTrace(s, Flatten(rounds))
            && (forall i :: 0 <= i < |cs| ==> Mailbox.IsRound(cs[i]) && Quiet(cs[i]))
    decreases rounds
  {
    if rounds != [] {
      var next := Run(s, rounds[0]);
      ControlRound(s, rounds[0]);
      SilentRun(s, rounds[0]);
      LastWriteWins(s, rounds[0]);
      ControlTraceConcat(s, rounds[0], Flatten(rounds[1..]));
      ControlRoundsFlatten(next, rounds[1..]);
    }
  }

  predicate Settled(s: System) {
    && s.Received() == s.regs
    && !s.Held() && Inv(s)
    && InFlight(s.control) == [] && !s.control.tx.dirty
  }

  /**
   Once software stops writing, eighteen rounds bring the 200 MHz registers to
   the register map, and there they stay.
   */
  lemma WritesSettle(s: System, rounds: seq<seq<Edge>>, after: seq<Edge>)
    requires Inv(s) && AreSilentRounds(rounds) && 18 <= |rounds| && Silent(after)
    ensures var end := Run(s, Flatten(rounds) + after);
            Settled(end) && end.regs == s.regs
  {
    var head, tail := rounds[..3], rounds[3..];
    SplitRounds(s, rounds, after);
    SettleReleased(Run(s, Flatten(head)), tail, after);
  }

  /** Meanwhile at most one word is launched: the one that was queued. */
  lemma OneMoreLaunch(s: System, rounds: seq<seq<Edge>>, after: seq<Edge>)
    requires Inv(s) && AreSilentRounds(rounds) && 18 <= |rounds| && Silent(after)
    ensures Launched(s.control, ControlTrace(s, Flatten(rounds) + after))
            == if s.control.tx.dirty then [s.control.tx.queued] else []
  {
    var head, tail := rounds[..3], rounds[3..];
    SplitRounds(s, rounds, after);
    SettleReleased(Run(s, Flatten(head)), tail, after);
    LaunchesAfterRelease(s, Flatten(head), Flatten(tail) + after);
  }

  lemma SplitRounds(s: System, rounds: seq<seq<Edge>>, after: seq<Edge>)
    requires Inv(s) && AreSilentRounds(rounds) && 3 <= |rounds|
    ensures var head, tail := Flatten(rounds[..3]), Flatten(rounds[3..]);
            && Flatten(rounds) + after == head + (tail + after)
            && Run(s, Flatten(rounds) + after) == Run(Run(s, head), tail + after)
            && Silent(head) && Inv(Run(s, head)) && !Run(s, head).Held() && Run(s, head).regs == s.regs
  {
    var head, tail := rounds[..3], rounds[3..];
    assert rounds == head + tail;
    FlattenConcat(head, tail);
    Release(s, head);
    LastWriteWins(s, Flatten(head));
    SilentRun(s, Flatten(head));
    RunConcat(s, Flatten(head), Flatten(tail) + after);
    assert Flatten(rounds) + after == Flatten(head) + (Flatten(tail) + after);
  }

  lemma LaunchesAfterRelease(s: System, head: seq<Edge>, tail: seq<Edge>)
    requires Inv(s) && Silent(head)
    requires var mid := Run(s, head).control;
             Launched(mid, ControlTrace(Run(s, head), tail)) == if mid.tx.dirty then [mid.tx.queued] else []
    ensures Launched(s.control, ControlTrace(s, head + tail)) == if s.control.tx.dirty then [s.control.tx.queued] else []
  {
    var events := ControlTrace(s, head);
    ControlTraceConcat(s, head, tail);
    ControlProjection(s, head);
    Mailbox.RunConcat(s.control, events, ControlTrace(Run(s, head), tail));
    SilentRun(s, head);
    Mailbox.QuietRun(s.control, events);
  }

  lemma SettleReleased(s: System, rounds: seq<seq<Edge>>, after: seq<Edge>)
    requires Inv(s) && !s.Held() && AreSilentRounds(rounds) && 15 <= |rounds| && Silent(after)
    ensures var end := Run(s, Flatten(rounds) + after);
            Settled(end) && end.regs == s.regs
    ensures Launched(s.control, ControlTrace(s, Flatten(rounds) + after))
            == if s.control.tx.dirty then [s.control.tx.queued] else []
  {
    var settle := Flatten(rounds);
    var mid := Run(s, settle);
    ControlRoundsFlatten(s, rounds);
    FlattenSilent(rounds);
    LastWriteWins(s, settle);
    LastWriteWins(s, settle + after);
    SilentRun(s, settle + after);
    SilentRun(s, settle);
    SilentRun(mid, after);
    ControlTraceConcat(s, settle, after);
    ControlProjection(s, settle + after);
    QuietDelivery(s.control, ControlRounds(s, rounds), ControlTrace(mid, after));
  }
}
