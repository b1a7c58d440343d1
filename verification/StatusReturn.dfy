/**
 The status direction: the sender watches a value and offers it whenever it
 differs from the mailbox.  What reaches the other side is a subsequence, in
 time order, of the values the watched signal really took.
 */
module StatusReturn {
  import opened Basics
  import opened Mailbox

  datatype Observation<W> =
    | Watch(current: W, ackNoise: bool)
    | Collect(busNoise: W, requestNoise: bool)

  function Offer<W(==)>(current: W, mailbox: W): Option<W> {
    if current != mailbox then Some(current) else None
  }

  function AsEvent<W(==)>(l: Link<W>, o: Observation<W>): Event<W> {
    match o
    case Watch(current, ackNoise) => SendTick(Offer(current, l.tx.mailbox), ackNoise)
    case Collect(busNoise, requestNoise) => ReceiveTick(busNoise, requestNoise)
  }

  /** The link events that a sequence of observations amounts to. */
  function AsEvents<W(==)>(l: Link<W>, os: seq<Observation<W>>): (es: seq<Event<W>>)
    ensures |es| == |os|
    decreases os
  {
    if os == [] then []
    else
      var e := AsEvent(l, os[0]);
      [e] + AsEvents(Step(l, e), os[1..])
  }

  /** The values of the watched signal, one for each sender clock edge. */
  function History<W>(os: seq<Observation<W>>): seq<W> {
    if os == [] then []
    else (if os[0].Watch? then [os[0].current] else []) + History(os[1..])
  }

  /**
   For each launch, the sender edge at which the launched word was the watched
   value.  `now` counts sender edges; `queuedAt` dates the queued word.
   */
  function LaunchTimes<W(==)>(l: Link<W>, now: nat, queuedAt: nat, os: seq<Observation<W>>): seq<nat>
    decreases os
  {
    if os == [] then []
    else
      var next := Step(l, AsEvent(l, os[0]));
      if os[0].Collect? then LaunchTimes(next, now, queuedAt, os[1..])
      else
        var changed := os[0].current != l.tx.mailbox;
        (if next.tx.request == l.tx.request then [] else [if changed then now else queuedAt])
        + LaunchTimes(next, now + 1, if changed then now else queuedAt, os[1..])
  }

  predicate StrictlyIncreasing(times: seq<nat>) {
    forall i, j :: 0 <= i < j < |times| ==> times[i] < times[j]
  }

  /** `words` are the values that `history` took at `times`. */
  predicate TakenAt<W(==)>(words: seq<W>, history: seq<W>, times: seq<nat>) {
    && |words| == |times|
    && forall i :: 0 <= i < |times| ==> times[i] < |history| && words[i] == history[times[i]]
  }

  /** A queued word differs from the mailbox it waits behind. */
  predicate StatusInv<W(==)>(l: Link<W>) {
    Inv(l) && (l.tx.dirty ==> l.tx.queued != l.tx.mailbox)
  }

  lemma StatusStepInv<W>(l: Link<W>, o: Observation<W>)
    requires StatusInv(l)
    ensures StatusInv(Step(l, AsEvent(l, o)))
    ensures var next := Step(l, AsEvent(l, o));
            next.tx.request != l.tx.request ==> next.tx.mailbox != l.tx.mailbox
  {
    StepInv(l, AsEvent(l, o));
  }

  lemma {:induction false} StatusRunInv<W>(l: Link<W>, os: seq<Observation<W>>)
    requires StatusInv(l)
    ensures StatusInv(Run(l, AsEvents(l, os)))
    decreases os
  {
    if os != [] {
      StatusStepInv(l, os[0]);
      StatusRunInv(Step(l, AsEvent(l, os[0])), os[1..]);
    }
  }

  lemma {:induction false} AsEventsConcat<W>(l: Link<W>, os: seq<Observation<W>>, ps: seq<Observation<W>>)
    ensures AsEvents(l, os + ps) == AsEvents(l, os) + AsEvents(Run(l, AsEvents(l, os)), ps)
    decreases os
  {
    if os == [] {
      assert os + ps == ps;
    } else {
      assert (os + ps)[1..] == os[1..] + ps;
      AsEventsConcat(Step(l, AsEvent(l, os[0])), os[1..], ps);
    }
  }

  /** `words` are launches dated `times`, none before `floor`. */
  predicate Dated<W(==)>(words: seq<W>, history: seq<W>, times: seq<nat>, floor: nat) {
    TakenAt(words, history, times) && StrictlyIncreasing(times) && (forall i :: 0 <= i < |times| ==> floor <= times[i])
  }

  /** What is dated stays dated behind one more launch that is no later. */
  lemma DatedWith<W>(launch: bool, word: W, at: nat, words: seq<W>, history: seq<W>, times: seq<nat>,
                     floor: nat, all: seq<W>, allTimes: seq<nat>)
    requires Dated(words, history, times, if launch then at + 1 else floor)
    requires launch ==> floor <= at < |history| && history[at] == word
    requires all == if launch then [word] + words else words
    requires allTimes == if launch then [at] + times else times
    ensures Dated(all, history, allTimes, floor)
  {
    if launch {
      forall i | 0 <= i < |allTimes|
        ensures floor <= allTimes[i] < |history| && all[i] == history[allTimes[i]]
      {
        if 0 < i {
          assert allTimes[i] == times[i - 1] && all[i] == words[i - 1];
        }
      }
      LaterThanAll(at, times);
    }
  }

  lemma LaterThanAll(at: nat, times: seq<nat>)
    requires StrictlyIncreasing(times) && forall i :: 0 <= i < |times| ==> at < times[i]
    ensures StrictlyIncreasing([at] + times)
  {
    forall i, j | 0 <= i < j < |times| + 1
      ensures ([at] + times)[i] < ([at] + times)[j]
    {
      if 0 < i {
        assert times[i - 1] < times[j - 1];
      }
    }
  }

  lemma PrefixDated<W>(some: seq<W>, words: seq<W>, history: seq<W>, times: seq<nat>, floor: nat)
    requires some <= words && Dated(words, history, times, floor)
    ensures exists ts :: StrictlyIncreasing(ts) && TakenAt(some, history, ts)
  {
    var ts := times[..|some|];
    assert StrictlyIncreasing(ts) && TakenAt(some, history, ts);
  }

  /** One watching edge dates the word it queues or launches. */
  lemma WatchDates<W>(l: Link<W>, o: Observation<W>, history: seq<W>, now: nat, queuedAt: nat, floor: nat)
    requires o.Watch? && floor <= now < |history| && history[now] == o.current
    requires l.tx.dirty ==> floor <= queuedAt < now && history[queuedAt] == l.tx.queued
    ensures var next := Step(l, AsEvent(l, o));
            var at := if o.current != l.tx.mailbox then now else queuedAt;
            && (next.tx.request == l.tx.request && next.tx.dirty ==>
                  floor <= at <= now && history[at] == next.tx.queued)
            && (next.tx.request != l.tx.request ==>
                  !next.tx.dirty && floor <= at <= now && history[at] == next.tx.mailbox)
  {
  }

  lemma CollectLaunchesNothing<W>(l: Link<W>, o: Observation<W>)
    requires o.Collect?
    ensures Step(l, AsEvent(l, o)).tx == l.tx
  {
  }

  lemma LaunchedFirst<W>(l: Link<W>, os: seq<Observation<W>>)
    requires os != []
    ensures var next := Step(l, AsEvent(l, os[0]));
            var rest := Launched(next, AsEvents(next, os[1..]));
            Launched(l, AsEvents(l, os)) == if next.tx.request != l.tx.request then [next.tx.mailbox] + rest else rest
  {
    assert AsEvents(l, os)[1..] == AsEvents(Step(l, AsEvent(l, os[0])), os[1..]);
  }

  lemma LaunchTimesFirst<W>(l: Link<W>, now: nat, queuedAt: nat, os: seq<Observation<W>>)
    requires os != []
    ensures var next := Step(l, AsEvent(l, os[0]));
            var at := if os[0].Watch? && os[0].current != l.tx.mailbox then now else queuedAt;
            var rest := LaunchTimes(next, if os[0].Watch? then now + 1 else now, at, os[1..]);
            LaunchTimes(l, now, queuedAt, os)
            == if os[0].Watch? && next.tx.request != l.tx.request then [at] + rest else rest
  {
  }

  lemma HistoryAdvances<W>(os: seq<Observation<W>>, history: seq<W>, now: nat)
    requires os != [] && now <= |history| && history[now..] == History(os)
    ensures if os[0].Collect? then history[now..] == History(os[1..])
            else now < |history| && history[now] == os[0].current && history[now + 1..] == History(os[1..])
  {
    assert os[0].Watch? ==> History(os) == [os[0].current] + History(os[1..]);
  }

  /** The launched words are values of the watched signal at strictly increasing times. */
  lemma {:induction false} LaunchesAreSamples<W>(
    l: Link<W>, history: seq<W>, now: nat, queuedAt: nat, floor: nat, os: seq<Observation<W>>)
    requires floor <= now <= |history| && history[now..] == History(os)
    requires l.tx.dirty ==> floor <= queuedAt < now && history[queuedAt] == l.tx.queued
    ensures Dated(Launched(l, AsEvents(l, os)), history, LaunchTimes(l, now, queuedAt, os), floor)
    decreases os, 1
  {
    if os != [] {
      if os[0].Watch? {
        LaunchesFromWatch(l, history, now, queuedAt, floor, os);
      } else {
        LaunchedFirst(l, os);
        HistoryAdvances(os, history, now);
        CollectLaunchesNothing(l, os[0]);
        LaunchesAreSamples(Step(l, AsEvent(l, os[0])), history, now, queuedAt, floor, os[1..]);
      }
    }
  }

  lemma {:induction false} LaunchesFromWatch<W>(
    l: Link<W>, history: seq<W>, now: nat, queuedAt: nat, floor: nat, os: seq<Observation<W>>)
    requires os != [] && os[0].Watch?
    requires floor <= now <= |history| && history[now..] == History(os)
    requires l.tx.dirty ==> floor <= queuedAt < now && history[queuedAt] == l.tx.queued
    ensures Dated(Launched(l, AsEvents(l, os)), history, LaunchTimes(l, now, queuedAt, os), floor)
    decreases os, 0
  {
    var next := Step(l, AsEvent(l, os[0]));
    var at := if os[0].current != l.tx.mailbox then now else queuedAt;
    var launch := next.tx.request != l.tx.request;
    HistoryAdvances(os, history, now);
    WatchDates(l, os[0], history, now, queuedAt, floor);
    LaunchesAreSamples(next, history, now + 1, at, if launch then at + 1 else floor, os[1..]);
    WatchExtends(l, history, now, queuedAt, floor, os, next, at);
  }

  /** The word that a watching edge launches goes before the later ones. */
  lemma WatchExtends<W>(l: Link<W>, history: seq<W>, now: nat, queuedAt: nat, floor: nat, os: seq<Observation<W>>,
                        next: Link<W>, at: nat)
    requires os != [] && os[0].Watch? && next == Step(l, AsEvent(l, os[0]))
    requires at == if os[0].current != l.tx.mailbox then now else queuedAt
    requires next.tx.request != l.tx.request ==> floor <= at < |history| && history[at] == next.tx.mailbox
    requires Dated(Launched(next, AsEvents(next, os[1..])), history, LaunchTimes(next, now + 1, at, os[1..]),
                   if next.tx.request != l.tx.request then at + 1 else floor)
    ensures Dated(Launched(l, AsEvents(l, os)), history, LaunchTimes(l, now, queuedAt, os), floor)
  {
    LaunchedFirst(l, os);
    LaunchTimesFirst(l, now, queuedAt, os);
    DatedWith(next.tx.request != l.tx.request, next.tx.mailbox, at,
              Launched(next, AsEvents(next, os[1..])), history, LaunchTimes(next, now + 1, at, os[1..]), floor,
              Launched(l, AsEvents(l, os)), LaunchTimes(l, now, queuedAt, os));
  }

  /**
   From a joint reset, the words that reach the other side are values the
   watched signal took, at strictly increasing times, and neighbours differ.
   */
  lemma CollectedWordsAreHistory<W>(zero: W, os: seq<Observation<W>>)
    ensures var es := AsEvents(Reset(zero), os);
            var captured := Captured(Reset(zero), es);
            exists times :: StrictlyIncreasing(times) && TakenAt(captured, History(os), times)
    ensures var captured := Captured(Reset(zero), AsEvents(Reset(zero), os));
            forall i :: 0 < i < |captured| ==> captured[i] != captured[i - 1]
  {
    var es := AsEvents(Reset(zero), os);
    var captured := Captured(Reset(zero), es);
    LaunchesAreSamples(Reset(zero), History(os), 0, 0, 0, os);
    ExactlyOnceDelivery(zero, es);
    PrefixDated(captured, Launched(Reset(zero), es), History(os), LaunchTimes(Reset(zero), 0, 0, os), 0);
    ResetInv(zero);
    LaunchesDiffer(Reset(zero), os);
    var launched := Launched(Reset(zero), es);
    assert forall i :: 0 <= i < |captured| ==> captured[i] == launched[i];
  }

  lemma {:induction false} LaunchesDiffer<W>(l: Link<W>, os: seq<Observation<W>>)
    requires StatusInv(l)
    ensures var launched := Launched(l, AsEvents(l, os));
            && (launched != [] ==> launched[0] != l.tx.mailbox)
            && (forall i :: 0 < i < |launched| ==> launched[i] != launched[i - 1])
    decreases os
  {
    if os != [] {
      StatusStepInv(l, os[0]);
      LaunchesDiffer(Step(l, AsEvent(l, os[0])), os[1..]);
    }
  }

  // ---------------------------------------------------------------------
  // The watched signal comes to rest.

  predicate Constant<W(==)>(os: seq<Observation<W>>, c: W) {
    forall i :: 0 <= i < |os| && os[i].Watch? ==> os[i].current == c
  }

  /** The words still to be launched while the watched signal stays at `c`: two after an A-B-A change. */
  function StillToLaunch<W(==)>(l: Link<W>, c: W): seq<W> {
    if l.tx.mailbox != c then [c] else if l.tx.dirty then [l.tx.queued, c] else []
  }

  function LaunchesLeft<W(==)>(l: Link<W>, c: W): nat {
    |StillToLaunch(l, c)|
  }

  function Unsettled<W(==)>(l: Link<W>, c: W): nat {
    Distance(l) + 10 * LaunchesLeft(l, c)
  }

  lemma ConstantStep<W>(l: Link<W>, o: Observation<W>, c: W)
    requires StatusInv(l)
    requires o.Watch? ==> o.current == c
    ensures var next := Step(l, AsEvent(l, o));
            var launch := if next.tx.request != l.tx.request then [next.tx.mailbox] else [];
            && launch + StillToLaunch(next, c) == StillToLaunch(l, c)
            && Unsettled(next, c) <= Unsettled(l, c)
            && (Unsettled(next, c) == Unsettled(l, c) ==> Distance(next) == Distance(l))
            && (o.Collect? && 5 <= Distance(l) ==> Unsettled(next, c) < Unsettled(l, c))
            && (o.Watch? && Distance(l) <= 4 && 0 < Unsettled(l, c) ==> Unsettled(next, c) < Unsettled(l, c))
  {
    StepDistance(l, AsEvent(l, o));
  }

  lemma {:induction false} ConstantRun<W>(l: Link<W>, os: seq<Observation<W>>, c: W)
    requires StatusInv(l) && Constant(os, c)
    ensures var end := Run(l, AsEvents(l, os));
            && Launched(l, AsEvents(l, os)) + StillToLaunch(end, c) == StillToLaunch(l, c)
            && Unsettled(end, c) <= Unsettled(l, c)
    decreases os
  {
    if os != [] {
      var next := Step(l, AsEvent(l, os[0]));
      ConstantStep(l, os[0], c);
      StatusStepInv(l, os[0]);
      ConstantRun(next, os[1..], c);
      LaunchedFirst(l, os);
      Reassociate(if next.tx.request != l.tx.request then [next.tx.mailbox] else [],
                  Launched(next, AsEvents(next, os[1..])), StillToLaunch(Run(l, AsEvents(l, os)), c));
    }
  }

  lemma Reassociate<T>(a: seq<T>, b: seq<T>, c: seq<T>)
    ensures (a + b) + c == a + (b + c)
    ensures [] + b == b
  {
  }

  predicate IsRound<W>(os: seq<Observation<W>>) {
    && (exists i :: 0 <= i < |os| && os[i].Watch?)
    && (exists i :: 0 <= i < |os| && os[i].Collect?)
  }

  lemma {:induction false} ConstantRound<W>(l: Link<W>, os: seq<Observation<W>>, c: W)
    requires StatusInv(l) && Constant(os, c) && 0 < Unsettled(l, c)
    requires if 5 <= Distance(l) then exists i :: 0 <= i < |os| && os[i].Collect?
             else exists i :: 0 <= i < |os| && os[i].Watch?
    ensures Unsettled(Run(l, AsEvents(l, os)), c) < Unsettled(l, c)
    decreases os
  {
    var next := Step(l, AsEvent(l, os[0]));
    ConstantStep(l, os[0], c);
    StatusStepInv(l, os[0]);
    if Unsettled(next, c) < Unsettled(l, c) {
      ConstantRun(next, os[1..], c);
    } else {
      var j :| 0 <= j < |os| && (if 5 <= Distance(l) then os[j].Collect? else os[j].Watch?);
      assert os[1..][j - 1] == os[j];
      ConstantRound(next, os[1..], c);
    }
  }

  lemma {:induction false} ConstantRounds<W>(l: Link<W>, rounds: seq<seq<Observation<W>>>, c: W)
    requires StatusInv(l)
    requires forall i :: 0 <= i < |rounds| ==> IsRound(rounds[i]) && Constant(rounds[i], c)
    ensures Constant(Flatten(rounds), c)
    ensures Unsettled(Run(l, AsEvents(l, Flatten(rounds))), c)
            <= if |rounds| <= Unsettled(l, c) then Unsettled(l, c) - |rounds| else 0
    decreases rounds
  {
    if rounds != [] {
      var first := AsEvents(l, rounds[0]);
      var next := Run(l, first);
      StatusRunInv(l, rounds[0]);
      AsEventsConcat(l, rounds[0], Flatten(rounds[1..]));
      RunConcat(l, first, AsEvents(next, Flatten(rounds[1..])));
      ConstantRun(l, rounds[0], c);
      if 0 < Unsettled(l, c) {
        ConstantRound(l, rounds[0], c);
      }
      ConstantRounds(next, rounds[1..], c);
    }
  }

  /** Twenty-five rounds after the watched signal comes to rest the far copy equals it, for as long as it rests. */
  lemma ConstantDelivery<W>(l: Link<W>, rounds: seq<seq<Observation<W>>>, after: seq<Observation<W>>, c: W)
    requires StatusInv(l) && 25 <= |rounds| && Constant(after, c)
    requires forall i :: 0 <= i < |rounds| ==> IsRound(rounds[i]) && Constant(rounds[i], c)
    ensures var es := AsEvents(l, Flatten(rounds) + after);
            && Run(l, es).rx.word == c
            && Launched(l, es) == StillToLaunch(l, c)
            && |Launched(l, es)| <= 2
  {
    var settle := Flatten(rounds);
    var es := AsEvents(l, settle);
    var mid := Run(l, es);
    ConstantRounds(l, rounds, c);
    ConstantRun(l, settle, c);
    StatusRunInv(l, settle);
    AsEventsConcat(l, settle, after);
    RunConcat(l, es, AsEvents(mid, after));
    ConstantRun(mid, after, c);
    StatusRunInv(mid, after);
  }

  /** The state after A and then B while A is in flight, both seen by the sender only. */
  function AfterTwo<W(==)>(zero: W, a: W, b: W): Link<W> {
    var first := Watch(a, false);
    var l := Step(Reset(zero), AsEvent(Reset(zero), first));
    Step(l, AsEvent(l, Watch(b, false)))
  }

  lemma AfterTwoInv<W>(zero: W, a: W, b: W)
    requires a != zero && a != b
    ensures var l := AfterTwo(zero, a, b);
            && StatusInv(l) && StillToLaunch(l, a) == [b, a]
            && l == Run(Reset(zero), AsEvents(Reset(zero), [Watch(a, false), Watch(b, false)]))
  {
    var l0, os := Reset(zero), [Watch(a, false), Watch(b, false)];
    var l1 := Step(l0, AsEvent(l0, os[0]));
    var l2 := Step(l1, AsEvent(l1, os[1]));
    ResetInv(zero);
    StatusStepInv(l0, os[0]);
    StatusStepInv(l1, os[1]);
    assert os[1..] == [os[1]] && os[1..][1..] == [];
    assert AsEvents(l1, os[1..]) == [AsEvent(l1, os[1])];
    assert AsEvents(l0, os)[1..] == AsEvents(l1, os[1..]);
    assert Run(l1, AsEvents(l1, os[1..])) == Run(l2, []);
  }

  /** The bound is met: A, then B while A is in flight, then A again launches the stale B and after it A once more. */
  lemma StaleWordIsSentFirst<W>(zero: W, a: W, b: W, rounds: seq<seq<Observation<W>>>, after: seq<Observation<W>>)
    requires a != zero && a != b
    requires 25 <= |rounds| && Constant(after, a)
    requires forall i :: 0 <= i < |rounds| ==> IsRound(rounds[i]) && Constant(rounds[i], a)
    ensures var l := Run(Reset(zero), AsEvents(Reset(zero), [Watch(a, false), Watch(b, false)]));
            var es := AsEvents(l, Flatten(rounds) + after);
            Launched(l, es) == [b, a] && Run(l, es).rx.word == a
  {
    AfterTwoInv(zero, a, b);
    ConstantDelivery(AfterTwo(zero, a, b), rounds, after, a);
  }
}
