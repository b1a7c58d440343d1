/**
 Runs of the PLL in which the reference pin is a given function of the cycle.

 Here and where these lemmas are used, `zero` is cycle 0.  It is a parameter so
 that proofs treat the run as a whole: at a literal the verifier would unfold it
 from the concrete reset state.
 */
module RefPllPins {
  import opened RegisterMap
  import opened RefPll
  import opened RefPllInvariant
  import opened RefPllTheorems

  /** The reference pin at each cycle; nothing is sampled before cycle 0. */
  type Pin = int -> bool

  function Pins(pin: Pin, from: nat, n: nat): seq<bool> {
    seq(n, i requires 0 <= i < n => pin(from + i))
  }

  lemma PinsFirst(pin: Pin, from: nat, n: nat)
    requires 0 < n
    ensures Pins(pin, from, n)[0] == pin(from) && Pins(pin, from, n)[1..] == Pins(pin, from + 1, n - 1)
  {
  }

  lemma PinsSplit(pin: Pin, from: nat, m: nat, n: nat)
    ensures Pins(pin, from, m + n) == Pins(pin, from, m) + Pins(pin, from + m, n)
  {
  }

  lemma {:induction false} RunConcat(holdoverDac: Word16, s: State, a: seq<bool>, b: seq<bool>)
    ensures Run(holdoverDac, s, a + b) == Run(holdoverDac, Run(holdoverDac, s, a), b)
    decreases a
  {
    if a == [] {
      assert a + b == b;
    } else {
      assert (a + b)[1..] == a[1..] + b;
      RunConcat(holdoverDac, Step(holdoverDac, s, a[0]), a[1..], b);
    }
  }

  lemma RunFirst(holdoverDac: Word16, s: State, pin: Pin, from: nat, n: nat)
    requires 0 < n
    ensures Run(holdoverDac, s, Pins(pin, from, n))
         == Run(holdoverDac, Step(holdoverDac, s, pin(from)), Pins(pin, from + 1, n - 1))
  {
    PinsFirst(pin, from, n);
  }

  lemma RunPins(holdoverDac: Word16, s: State, pin: Pin, from: nat, m: nat, n: nat)
    ensures Run(holdoverDac, s, Pins(pin, from, m + n))
         == Run(holdoverDac, Run(holdoverDac, s, Pins(pin, from, m)), Pins(pin, from + m, n))
  {
    PinsSplit(pin, from, m, n);
    RunConcat(holdoverDac, s, Pins(pin, from, m), Pins(pin, from + m, n));
  }

  /** What every step keeps, dated from cycle `zero`, a run keeps. */
  lemma {:induction false} RunKeeps(
    holdoverDac: Word16, pin: Pin, zero: nat, keep: (State, nat) -> bool, s: State, u: nat, to: nat, n: nat)
    requires keep(s, u) && to == u + n
    requires forall s': State, v: nat :: keep(s', v) && v < to ==> keep(Step(holdoverDac, s', pin(v + zero)), v + 1)
    ensures keep(Run(holdoverDac, s, Pins(pin, u + zero, n)), to)
    decreases n
  {
    if n == 0 {
      assert Run(holdoverDac, s, Pins(pin, u + zero, n)) == s;
    } else {
      RunKeeps(holdoverDac, pin, zero, keep, Step(holdoverDac, s, pin(u + zero)), u + 1, to, n - 1);
      RunFirst(holdoverDac, s, pin, u + zero, n);
    }
  }

  /** An edge of the pin comes out of the synchroniser in cycle `t`. */
  predicate SeenAt(pin: Pin, t: int) {
    pin(t - 3) && !pin(t - 4)
  }

  /** The synchroniser at cycle `t` holds the four samples before it. */
  predicate Sampled(s: State, pin: Pin, t: nat) {
    s.external == Sync4(pin(t - 1), pin(t - 2), pin(t - 3), pin(t - 4))
  }

  lemma StepSampled(holdoverDac: Word16, s: State, pin: Pin, t: nat)
    requires Sampled(s, pin, t)
    ensures Sampled(Step(holdoverDac, s, pin(t)), pin, t + 1)
    ensures s.external.Rising() <==> SeenAt(pin, t)
  {
  }

  // ---------------------------------------------------------------------
  // Until the second edge nothing but the classifier moves.

  predicate Waiting(s: State, pin: Pin, t: nat, phase: nat) {
    && Sampled(s, pin, t) && s.reference == (phase + t) % 10
    && s.classifier == (if t <= 3 then Classifier(false, 0, false, false) else Classifier(true, t - 3, false, false))
    && s.r == Divider(0, false) && s.n == Divider(0, false)
    && s.period == Period(0, 0) && s.lead == Lead(0, false, 0)
  }

  /** The classifier counts from the one edge in sight. */
  lemma WaitingClassifier(c: Classifier, t: nat, rising: bool)
    requires c == (if t <= 3 then Classifier(false, 0, false, false) else Classifier(true, t - 3, false, false))
    requires t <= REF_PPS_MAX && (rising <==> t == 3)
    ensures Classify(c, rising)
         == if t < 3 then Classifier(false, 0, false, false) else Classifier(true, t - 2, false, false)
  {
  }

  lemma CountOn(phase: nat, t: nat)
    ensures (phase + t + 1) % 10 == ((phase + t) % 10 + 1) % 10
  {
  }

  lemma StepWaiting(holdoverDac: Word16, s: State, pin: Pin, t: nat, phase: nat)
    requires Waiting(s, pin, t, phase) && t <= REF_PPS_MAX
    requires SeenAt(pin, t) <==> t == 3
    ensures Waiting(Step(holdoverDac, s, pin(t)), pin, t + 1, phase)
  {
    StepSampled(holdoverDac, s, pin, t);
    WaitingClassifier(s.classifier, t, s.external.Rising());
    CountOn(phase, t);
  }

  /** From reset, with one edge in sight, to the cycle of the next. */
  lemma RunWaiting(holdoverDac: Word16, pin: Pin, zero: nat, to: nat, phase: nat)
    requires zero == 0 && phase < 10 && 3 < to <= REF_PPS_MAX
    requires forall t: int :: t < 0 ==> !pin(t)
    requires forall t: int :: t < to ==> (SeenAt(pin, t) <==> t == 3)
    ensures Waiting(Run(holdoverDac, Reset(holdoverDac, phase), Pins(pin, zero, to - zero)), pin, to, phase)
  {
    forall s': State, v: nat | Waiting(s', pin, v, phase) && v < to
      ensures Waiting(Step(holdoverDac, s', pin(v)), pin, v + 1, phase)
    {
      StepWaiting(holdoverDac, s', pin, v, phase);
    }
    RunKeeps(holdoverDac, pin, 0, (s': State, v: nat) => Waiting(s', pin, v, phase), Reset(holdoverDac, phase), zero, to, to - zero);
  }

  lemma WaitingInv(s: State, pin: Pin, t: nat, phase: nat)
    requires Waiting(s, pin, t, phase) && t <= REF_PPS_MAX
    ensures Inv(s)
  {
  }

  // ---------------------------------------------------------------------
  // Steady runs.

  lemma OneSteady(holdoverDac: Word16, s: State, sample: bool, kind: bool)
    requires Inv(s) && s.classifier.Valid() && s.classifier.is10m == kind
    requires var c := Step(holdoverDac, s, sample).classifier;
             c.Valid() && c.is10m == kind
    ensures Inv(Step(holdoverDac, s, sample)) && SteadyStep(holdoverDac, s, sample)
  {
    StepKeepsInv(holdoverDac, s, sample);
  }

  lemma SteadyFirst(holdoverDac: Word16, s: State, pin: Pin, from: nat, n: nat)
    requires 0 < n && SteadyStep(holdoverDac, s, pin(from))
    requires SteadyRun(holdoverDac, Step(holdoverDac, s, pin(from)), Pins(pin, from + 1, n - 1))
    ensures SteadyRun(holdoverDac, s, Pins(pin, from, n))
  {
    PinsFirst(pin, from, n);
  }

  /** Until cycle `to`, dated from `zero`, every step of a state with the property is steady and keeps it. */
  ghost predicate KeepsSteady(holdoverDac: Word16, pin: Pin, zero: nat, keep: (State, nat) -> bool, to: nat) {
    && (forall s: State, v: nat :: keep(s, v) && v < to ==> SteadyStep(holdoverDac, s, pin(v + zero)))
    && (forall s: State, v: nat :: keep(s, v) && v < to ==> keep(Step(holdoverDac, s, pin(v + zero)), v + 1))
  }

  /** So runs from such a state are steady. */
  lemma {:induction false} StaysSteady(
    holdoverDac: Word16, pin: Pin, zero: nat, keep: (State, nat) -> bool, to: nat, s: State, u: nat, t: nat, n: nat)
    requires KeepsSteady(holdoverDac, pin, zero, keep, to)
    requires keep(s, u) && t == u + zero && u + n <= to
    ensures SteadyRun(holdoverDac, s, Pins(pin, t, n))
    decreases n
  {
    if n != 0 {
      var next := Step(holdoverDac, s, pin(t));
      StaysSteady(holdoverDac, pin, zero, keep, to, next, u + 1, t + 1, n - 1);
      SteadyFirst(holdoverDac, s, pin, t, n);
    }
  }

  // ---------------------------------------------------------------------
  // Runs in laps of equal length: what holds in cycle `i` of lap `k`.

  /** The lap and cycle after these. */
  predicate Follows(length: nat, k: nat, i: nat, k': nat, i': nat) {
    if i + 1 == length then k' == k + 1 && i' == 0 else k' == k && i' == i + 1
  }

  /** Up to lap `laps`, every step takes a state to the next cycle; lap `k` starts at `edge(k)`. */
  ghost predicate KeepsLaps(
    holdoverDac: Word16, pin: Pin, edge: nat -> nat, lap: (State, nat, nat) -> bool, length: nat, laps: nat)
  {
    && (forall k: nat, i: nat, k': nat, i': nat :: Follows(length, k, i, k', i') ==> edge(k') + i' == edge(k) + i + 1)
    && (forall s: State, k: nat, i: nat, k': nat, i': nat ::
          lap(s, k, i) && i < length && Follows(length, k, i, k', i') && k' <= laps ==>
            lap(Step(holdoverDac, s, pin(edge(k) + i)), k', i'))
  }

  lemma LapGoesOn(
    holdoverDac: Word16, pin: Pin, edge: nat -> nat, lap: (State, nat, nat) -> bool, length: nat, laps: nat,
    s: State, k: nat, i: nat, k': nat, i': nat, t: nat)
    requires KeepsLaps(holdoverDac, pin, edge, lap, length, laps)
    requires lap(s, k, i) && i < length && Follows(length, k, i, k', i') && k' <= laps && t == edge(k) + i
    ensures lap(Step(holdoverDac, s, pin(t)), k', i') && edge(k') + i' == t + 1
  {
  }

  lemma {:induction false} RunLaps(
    holdoverDac: Word16, pin: Pin, edge: nat -> nat, lap: (State, nat, nat) -> bool, length: nat, laps: nat,
    start: State, zero: nat, k: nat, i: nat)
    requires KeepsLaps(holdoverDac, pin, edge, lap, length, laps) && k <= laps && i < length
    requires zero == 0 && lap(Run(holdoverDac, start, Pins(pin, zero, edge(zero))), zero, zero)
    ensures lap(Run(holdoverDac, start, Pins(pin, zero, edge(k) + i)), k, i)
    decreases k, i
  {
    if 0 < k || 0 < i {
      var k0, i0 := if 0 < i then k else k - 1, if 0 < i then i - 1 else length - 1;
      var t := edge(k0) + i0;
      RunLaps(holdoverDac, pin, edge, lap, length, laps, start, zero, k0, i0);
      OneMore(holdoverDac, start, pin, zero, t);
      LapGoesOn(holdoverDac, pin, edge, lap, length, laps, Run(holdoverDac, start, Pins(pin, zero, t)), k0, i0, k, i, t);
    }
  }

  lemma OneMore(holdoverDac: Word16, start: State, pin: Pin, zero: nat, t: nat)
    requires zero == 0
    ensures Run(holdoverDac, start, Pins(pin, zero, t + 1))
         == Step(holdoverDac, Run(holdoverDac, start, Pins(pin, zero, t)), pin(t))
  {
    RunPins(holdoverDac, start, pin, zero, t, 1);
    RunFirst(holdoverDac, Run(holdoverDac, start, Pins(pin, zero, t)), pin, t, 1);
  }
}
