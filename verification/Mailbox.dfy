/**
 The request/acknowledge mailbox that carries a word from one clock domain to
 another.  The same circuit is used in both directions of the controller.

 A signal that crosses clocks is sampled by a register of the other domain.  If
 the signal has moved since that register's previous clock edge, the model lets
 the sample be ANY value, which includes every mixture of old and new bits.
 */
module Mailbox {
  import opened Basics

  datatype Sender<W> = Sender(mailbox: W, queued: W, request: bool, dirty: bool, ackSync: Sync3) {
    predicate Pending() {
      request != ackSync.s2
    }

    /** The word the sender wants the other side to hold in the end. */
    function Intended(): W {
      if dirty then queued else mailbox
    }
  }

  datatype Receiver<W> = Receiver(busMeta: W, busSync: W, requestSync: Sync3, ack: bool, word: W)

  /** One sender clock edge; `offer` is the new word, if there is one. */
  function SenderTick<W>(s: Sender<W>, offer: Option<W>, ackSample: bool): Sender<W> {
    var shifted := s.(ackSync := s.ackSync.Shift(ackSample));
    if offer.Some? then
      if s.Pending() then
        shifted.(queued := offer.value, dirty := true)
      else
        shifted.(mailbox := offer.value, request := !s.request, dirty := false)
    else if !s.Pending() && s.dirty then
      shifted.(mailbox := s.queued, request := !s.request, dirty := false)
    else
      shifted
  }

  /** One receiver clock edge. */
  function ReceiverTick<W>(r: Receiver<W>, busSample: W, requestSample: bool): Receiver<W> {
    var capture := r.requestSync.s2 != r.ack;
    Receiver(
      busSample, r.busMeta, r.requestSync.Shift(requestSample),
      if capture then r.requestSync.s2 else r.ack,
      if capture then r.busSync else r.word)
  }

  /** Both ends and, for each crossing, whether it moved since it was last sampled. */
  datatype Link<W> = Link(tx: Sender<W>, rx: Receiver<W>, forwardMoved: bool, backMoved: bool)

  datatype Event<W> =
    | SendTick(offer: Option<W>, ackNoise: bool)
    | ReceiveTick(busNoise: W, requestNoise: bool)

  function Reset<W>(zero: W): Link<W> {
    Link(Sender(zero, zero, false, false, Sync3(false, false, false)),
         Receiver(zero, zero, Sync3(false, false, false), false, zero),
         false, false)
  }

  function Step<W(==)>(l: Link<W>, e: Event<W>): Link<W> {
    match e
    case SendTick(offer, ackNoise) =>
      var tx := SenderTick(l.tx, offer, if l.backMoved then ackNoise else l.rx.ack);
      var moved := tx.request != l.tx.request || tx.mailbox != l.tx.mailbox;
      Link(tx, l.rx, l.forwardMoved || moved, false)
    case ReceiveTick(busNoise, requestNoise) =>
      var rx := ReceiverTick(l.rx,
                             if l.forwardMoved then busNoise else l.tx.mailbox,
                             if l.forwardMoved then requestNoise else l.tx.request);
      Link(l.tx, rx, false, l.backMoved || rx.ack != l.rx.ack)
  }

  function Run<W(==)>(l: Link<W>, es: seq<Event<W>>): Link<W>
    decreases es
  {
    if es == [] then l else Run(Step(l, es[0]), es[1..])
  }

  // ---------------------------------------------------------------------
  // Observations of a run.

  /** The words placed in the mailbox, in order: one for each request toggle. */
  function Launched<W(==)>(l: Link<W>, es: seq<Event<W>>): seq<W>
    decreases es
  {
    if es == [] then []
    else
      var next := Step(l, es[0]);
      (if next.tx.request != l.tx.request then [next.tx.mailbox] else []) + Launched(next, es[1..])
  }

  /** The words loaded by the receiver, in order: one for each acknowledge toggle. */
  function Captured<W(==)>(l: Link<W>, es: seq<Event<W>>): seq<W>
    decreases es
  {
    if es == [] then []
    else
      var next := Step(l, es[0]);
      (if next.rx.ack != l.rx.ack then [next.rx.word] else []) + Captured(next, es[1..])
  }

  /** The word that is launched but not yet captured. */
  function InFlight<W>(l: Link<W>): seq<W> {
    if l.rx.ack != l.tx.request then [l.tx.mailbox] else []
  }

  // ---------------------------------------------------------------------
  // The invariant.

  /**
   Read the toggle around the loop: request, three request synchronisers,
   acknowledge, three acknowledge synchronisers.  There is at most one place
   where two neighbours differ.
   */
  predicate OneTransition<W>(l: Link<W>) {
    var q := l.tx.request;
    var r := l.rx.requestSync;
    var a := l.tx.ackSync;
    && (r.s0 != q ==> r.s1 != q)
    && (r.s1 != q ==> r.s2 != q)
    && (r.s2 != q ==> l.rx.ack != q)
    && (l.rx.ack != q ==> a.s0 != q)
    && (a.s0 != q ==> a.s1 != q)
    && (a.s1 != q ==> a.s2 != q)
    && (l.forwardMoved ==> r.s0 != q)
    && (l.backMoved ==> l.rx.ack == q && a.s0 != q)
  }

  /** How far the mailbox word has travelled, given how far the request has. */
  predicate DataFollows<W(==)>(l: Link<W>) {
    var q := l.tx.request;
    && (l.rx.requestSync.s1 == q ==> l.rx.busMeta == l.tx.mailbox)
    && (l.rx.requestSync.s2 == q ==> l.rx.busSync == l.tx.mailbox)
    && (l.rx.ack == q ==> l.rx.word == l.tx.mailbox)
  }

  predicate Inv<W(==)>(l: Link<W>) {
    OneTransition(l) && DataFollows(l)
  }

  lemma ResetInv<W>(zero: W)
    ensures Inv(Reset(zero))
  {
  }

  lemma StepInv<W>(l: Link<W>, e: Event<W>)
    requires Inv(l)
    ensures Inv(Step(l, e))
    // A launch waits for the whole loop to agree; a pending word never changes.
    ensures l.tx.Pending() ==> Step(l, e).tx.mailbox == l.tx.mailbox && Step(l, e).tx.request == l.tx.request
    ensures Step(l, e).tx.request != l.tx.request ==> InFlight(l) == []
    // A capture loads the pending word and nothing else.
    ensures Step(l, e).rx.ack != l.rx.ack ==> InFlight(l) == [Step(l, e).rx.word]
    ensures Step(l, e).rx.ack == l.rx.ack ==> Step(l, e).rx.word == l.rx.word
  {
  }

  lemma {:induction false} RunInv<W>(l: Link<W>, es: seq<Event<W>>)
    requires Inv(l)
    ensures Inv(Run(l, es))
    decreases es
  {
    if es != [] {
      StepInv(l, es[0]);
      RunInv(Step(l, es[0]), es[1..]);
    }
  }

  lemma {:induction false} RunConcat<W>(l: Link<W>, es: seq<Event<W>>, fs: seq<Event<W>>)
    ensures Run(l, es + fs) == Run(Run(l, es), fs)
    ensures Launched(l, es + fs) == Launched(l, es) + Launched(Run(l, es), fs)
    decreases es
  {
    if es == [] {
      assert es + fs == fs;
    } else {
      assert (es + fs)[1..] == es[1..] + fs;
      RunConcat(Step(l, es[0]), es[1..], fs);
    }
  }

  // ---------------------------------------------------------------------
  // What a sample may see.

  /** Without an edge of the receiver at most one word is launched, and the crossing counts as moved exactly then. */
  lemma {:induction false} SenderAlone<W>(l: Link<W>, es: seq<Event<W>>)
    requires Inv(l) && forall i :: 0 <= i < |es| ==> es[i].SendTick?
    ensures var later := Run(l, es);
            && later.rx == l.rx
            && (later.forwardMoved <==> l.forwardMoved || later.tx.request != l.tx.request)
            && (l.rx.ack != l.tx.request || later.tx.request == l.tx.request ==>
                  later.tx.request == l.tx.request && later.tx.mailbox == l.tx.mailbox)
    decreases es
  {
    if es != [] {
      StepInv(l, es[0]);
      SenderAlone(Step(l, es[0]), es[1..]);
    }
  }

  /** Without an edge of the sender at most one word is captured, and the acknowledge counts as moved exactly then. */
  lemma {:induction false} ReceiverAlone<W>(l: Link<W>, es: seq<Event<W>>)
    requires Inv(l) && forall i :: 0 <= i < |es| ==> es[i].ReceiveTick?
    ensures var later := Run(l, es);
            && later.tx == l.tx
            && (later.backMoved <==> l.backMoved || later.rx.ack != l.rx.ack)
            && (l.rx.ack == l.tx.request ==> later.rx.ack == l.rx.ack)
    decreases es
  {
    if es != [] {
      StepInv(l, es[0]);
      ReceiverAlone(Step(l, es[0]), es[1..]);
    }
  }

  /**
   Between two edges of the receiver the sender may have any number of edges.
   The second receiver edge reads the lines as they stand if no word was
   launched in between, and may read anything if one was.
   */
  lemma ForwardSample<W>(l: Link<W>, first: Event<W>, es: seq<Event<W>>, bus: W, request: bool)
    requires Inv(l) && first.ReceiveTick? && forall i :: 0 <= i < |es| ==> es[i].SendTick?
    ensures var before := Run(Step(l, first), es).tx;
            var after := Step(Run(Step(l, first), es), ReceiveTick(bus, request)).rx;
            (after.busMeta, after.requestSync.s0) ==
            if before.request == l.tx.request then (l.tx.mailbox, l.tx.request) else (bus, request)
  {
    StepInv(l, first);
    SenderAlone(Step(l, first), es);
  }

  /** The same for the acknowledge: the sender's second edge reads it, or anything if a word was captured in between. */
  lemma BackSample<W>(l: Link<W>, first: Event<W>, es: seq<Event<W>>, offer: Option<W>, ack: bool)
    requires Inv(l) && first.SendTick? && forall i :: 0 <= i < |es| ==> es[i].ReceiveTick?
    ensures var before := Run(Step(l, first), es).rx;
            Step(Run(Step(l, first), es), SendTick(offer, ack)).tx.ackSync.s0 ==
            if before.ack == l.rx.ack then l.rx.ack else ack
  {
    StepInv(l, first);
    ReceiverAlone(Step(l, first), es);
  }

  // ---------------------------------------------------------------------
  // Exactly-once, in-order, untorn delivery.

  /** Conservation: what was in flight plus what is launched equals what is captured plus what is in flight. */
  lemma {:induction false} Conservation<W>(l: Link<W>, es: seq<Event<W>>)
    requires Inv(l)
    ensures InFlight(l) + Launched(l, es) == Captured(l, es) + InFlight(Run(l, es))
    decreases es
  {
    if es != [] {
      var next := Step(l, es[0]);
      StepInv(l, es[0]);
      Conservation(next, es[1..]);
      var launch := if next.tx.request != l.tx.request then [next.tx.mailbox] else [];
      var capture := if next.rx.ack != l.rx.ack then [next.rx.word] else [];
      assert InFlight(l) + launch == capture + InFlight(next);
      Balance(InFlight(l), launch, Launched(next, es[1..]), capture, InFlight(next), Captured(next, es[1..]),
              InFlight(Run(next, es[1..])));
    }
  }

  /** The receiver's output is always the last word it captured. */
  lemma {:induction false} OutputIsLastCapture<W>(l: Link<W>, es: seq<Event<W>>)
    requires Inv(l)
    ensures var cs := Captured(l, es);
            Run(l, es).rx.word == if cs == [] then l.rx.word else cs[|cs| - 1]
    decreases es
  {
    if es != [] {
      StepInv(l, es[0]);
      OutputIsLastCapture(Step(l, es[0]), es[1..]);
    }
  }

  /** From a joint reset every word is delivered once, in order and whole; at most the last launch is outstanding. */
  lemma ExactlyOnceDelivery<W>(zero: W, es: seq<Event<W>>)
    ensures var l := Run(Reset(zero), es);
            var launched := Launched(Reset(zero), es);
            var captured := Captured(Reset(zero), es);
            && captured <= launched
            && |launched| - 1 <= |captured|
            && (|captured| == |launched| <==> l.rx.ack == l.tx.request)
            && l.rx.word == (if captured == [] then zero else launched[|captured| - 1])
  {
    ResetInv(zero);
    Conservation(Reset(zero), es);
    OutputIsLastCapture(Reset(zero), es);
    var captured := Captured(Reset(zero), es);
    var inFlight := InFlight(Run(Reset(zero), es));
    assert Launched(Reset(zero), es) == captured + inFlight;
  }

  /**
   The protection is needed: a word that was never launched can sit in the
   second bus register, one edge before a capture of the true word.
   */
  lemma TornWordReachesBusSync<W>(zero: W, sent: W, torn: W)
    requires torn != zero && torn != sent
    ensures var es := [SendTick(Some(sent), false), ReceiveTick(torn, true), ReceiveTick(zero, false)];
            var l := Run(Reset(zero), es);
            && l.rx.busSync == torn
            && Run(l, [ReceiveTick(zero, false), ReceiveTick(zero, false)]).rx.word == sent
  {
    var l0 := Reset(zero);
    var l1 := Step(l0, SendTick(Some(sent), false));
    var l2 := Step(l1, ReceiveTick(torn, true));
    var l3 := Step(l2, ReceiveTick(zero, false));
    var quiet := ReceiveTick(zero, false);
    var es := [SendTick(Some(sent), false), ReceiveTick(torn, true), quiet];
    assert es[1..] == [ReceiveTick(torn, true), quiet];
    assert es[1..][1..] == [quiet];
    assert Run(l2, [quiet]) == Run(l3, []);
    assert Run(l0, es) == l3;
    var l4 := Step(l3, quiet);
    assert [quiet, quiet][1..] == [quiet];
    assert Run(l3, [quiet, quiet]) == Run(l4, [quiet]) == Run(Step(l4, quiet), []);
  }

  // ---------------------------------------------------------------------
  // Progress.

  /**
   The number of clock edges, each of the domain whose turn it is, until the
   acknowledge of the current word is back at the sender.
   */
  function Distance<W>(l: Link<W>): nat {
    var q := l.tx.request;
    var r := l.rx.requestSync;
    var a := l.tx.ackSync;
    if r.s0 != q then (if l.forwardMoved then 9 else 8)
    else if r.s1 != q then 7
    else if r.s2 != q then 6
    else if l.rx.ack != q then 5
    else if a.s0 != q then (if l.backMoved then 4 else 3)
    else if a.s1 != q then 2
    else if a.s2 != q then 1
    else 0
  }

  lemma StepDistance<W>(l: Link<W>, e: Event<W>)
    requires Inv(l)
    ensures var next := Step(l, e);
            var d := Distance(l);
            && (next.tx.request != l.tx.request ==> d == 0 && Distance(next) == 9)
            && (next.tx.request == l.tx.request ==>
                  && Distance(next) <= d
                  && (e.ReceiveTick? && 5 <= d ==> Distance(next) < d)
                  && (e.SendTick? && 1 <= d <= 4 ==> Distance(next) < d))
  {
  }

  /** A stretch of time in which both clocks have at least one edge. */
  predicate IsRound<W>(es: seq<Event<W>>) {
    && (exists i :: 0 <= i < |es| && es[i].SendTick?)
    && (exists i :: 0 <= i < |es| && es[i].ReceiveTick?)
  }

  function Flatten<T>(rounds: seq<seq<T>>): seq<T> {
    if rounds == [] then [] else rounds[0] + Flatten(rounds[1..])
  }

  predicate Quiet<W>(es: seq<Event<W>>) {
    forall i :: 0 <= i < |es| && es[i].SendTick? ==> es[i].offer.None?
  }

  /** Work left when nothing more is offered: a queued word needs a launch and a whole trip. */
  function Remaining<W>(l: Link<W>): nat {
    Distance(l) + if l.tx.dirty then 10 else 0
  }

  lemma QuietStep<W>(l: Link<W>, e: Event<W>)
    requires Inv(l)
    requires e.SendTick? ==> e.offer.None?
    ensures var next := Step(l, e);
            && next.tx.Intended() == l.tx.Intended()
            && Remaining(next) <= Remaining(l)
            && (e.ReceiveTick? && 5 <= Distance(l) ==> Remaining(next) < Remaining(l))
            && (e.SendTick? && Distance(l) <= 4 && 0 < Remaining(l) ==> Remaining(next) < Remaining(l))
            && (next.tx.request != l.tx.request ==> l.tx.dirty && !next.tx.dirty && next.tx.mailbox == l.tx.queued)
            && (next.tx.dirty ==> l.tx.dirty)
            && (next.tx.request == l.tx.request ==> next.tx.dirty == l.tx.dirty && Distance(next) <= Distance(l))
  {
    StepDistance(l, e);
  }

  /** Writes stop: the intended word stays, and only a queued word is launched, once. */
  lemma {:induction false} QuietRun<W>(l: Link<W>, es: seq<Event<W>>)
    requires Inv(l) && Quiet(es)
    ensures var end := Run(l, es);
            && end.tx.Intended() == l.tx.Intended()
            && Remaining(end) <= Remaining(l)
            && (end.tx.dirty ==> l.tx.dirty && Launched(l, es) == [])
            && (!end.tx.dirty && l.tx.dirty ==> Launched(l, es) == [l.tx.queued])
            && (!l.tx.dirty ==> Launched(l, es) == [])
    decreases es
  {
    if es != [] {
      QuietStep(l, es[0]);
      StepInv(l, es[0]);
      QuietRun(Step(l, es[0]), es[1..]);
    }
  }

  /** A round brings an unfinished transfer at least one edge closer. */
  lemma {:induction false} QuietRound<W>(l: Link<W>, es: seq<Event<W>>)
    requires Inv(l) && Quiet(es) && 0 < Remaining(l)
    requires if 5 <= Distance(l) then exists i :: 0 <= i < |es| && es[i].ReceiveTick?
             else exists i :: 0 <= i < |es| && es[i].SendTick?
    ensures Remaining(Run(l, es)) < Remaining(l)
  {
    var next := Step(l, es[0]);
    QuietStep(l, es[0]);
    StepInv(l, es[0]);
    if Remaining(next) < Remaining(l) {
      QuietRun(next, es[1..]);
    } else {
      assert Distance(next) == Distance(l);
      var j :| 0 <= j < |es| && (if 5 <= Distance(l) then es[j].ReceiveTick? else es[j].SendTick?);
      assert es[1..][j - 1] == es[j];
      QuietRound(next, es[1..]);
    }
  }

  lemma {:induction false} QuietRounds<W>(l: Link<W>, rounds: seq<seq<Event<W>>>)
    requires Inv(l)
    requires forall i :: 0 <= i < |rounds| ==> IsRound(rounds[i]) && Quiet(rounds[i])
    ensures Quiet(Flatten(rounds))
    ensures Remaining(Run(l, Flatten(rounds))) <= if |rounds| <= Remaining(l) then Remaining(l) - |rounds| else 0
    decreases rounds
  {
    if rounds != [] {
      var next := Run(l, rounds[0]);
      RunInv(l, rounds[0]);
      RunConcat(l, rounds[0], Flatten(rounds[1..]));
      QuietRun(l, rounds[0]);
      if 0 < Remaining(l) {
        QuietRound(l, rounds[0]);
      }
      QuietRounds(next, rounds[1..]);
    }
  }

  /** Fifteen quiet rounds deliver the intended word; it then stays as long as nothing is offered. */
  lemma QuietDelivery<W>(l: Link<W>, rounds: seq<seq<Event<W>>>, after: seq<Event<W>>)
    requires Inv(l) && 15 <= |rounds| && Quiet(after)
    requires forall i :: 0 <= i < |rounds| ==> IsRound(rounds[i]) && Quiet(rounds[i])
    ensures var end := Run(l, Flatten(rounds) + after);
            && end.rx.word == end.tx.mailbox == l.tx.Intended()
            && !end.tx.dirty && InFlight(end) == []
            && Launched(l, Flatten(rounds) + after) == if l.tx.dirty then [l.tx.queued] else []
  {
    var settle := Flatten(rounds);
    var mid := Run(l, settle);
    QuietRounds(l, rounds);
    QuietRun(l, settle);
    RunInv(l, settle);
    RunConcat(l, settle, after);
    QuietRun(mid, after);
    RunInv(mid, after);
  }
}
