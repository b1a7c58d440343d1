/**
 The reference classifier against the history of reference edges, and when a
 direct change between the two kinds of reference leaves the dividers in range.
 */
module RefClassifier {
  import opened RegisterMap
  import opened RefPll
  import opened RefPllInvariant

  /** The classifier after a history of the rising-edge wire, one entry a cycle. */
  function Classified(history: seq<bool>): Classifier {
    if history == [] then Classifier(false, 0, false, false)
    else Classify(Classified(history[..|history| - 1]), history[|history| - 1])
  }

  /** The latest edge before cycle `before`, or -1. */
  function LastEdge(history: seq<bool>, before: nat): (e: int)
    requires before <= |history|
    ensures -1 <= e < before
    ensures 0 <= e ==> history[e]
    ensures forall i :: e < i < before ==> !history[i]
  {
    if before == 0 then -1
    else if history[before - 1] then before - 1
    else LastEdge(history, before - 1)
  }

  lemma {:induction false} LastEdgeOfPrefix(history: seq<bool>, before: nat)
    requires before < |history|
    ensures LastEdge(history, before) == LastEdge(history[..|history| - 1], before)
  {
    if before != 0 {
      LastEdgeOfPrefix(history, before - 1);
    }
  }

  /** An edge has been seen, and not so long ago that it timed out. */
  predicate Live(history: seq<bool>) {
    var last := LastEdge(history, |history|);
    0 <= last && |history| - last <= 200_040_001
  }

  /** The distance between the last two edges; zero if there are not two. */
  function LastDistance(history: seq<bool>): nat {
    var last := LastEdge(history, |history|);
    if last < 0 then 0
    else
      var previous := LastEdge(history, last);
      if previous < 0 then 0 else last - previous
  }

  /**
   The count is the exact distance to the last edge.  10 MHz is accepted exactly
   when the last two edges are 19, 20 or 21 cycles apart, and PPS exactly when
   they are within 40,000 cycles of a second apart, until no edge has come for
   that long; the two exclude each other.
   */
  predicate IsHistory(c: Classifier, history: seq<bool>) {
    && (c.seen <==> Live(history))
    && c.count == (if Live(history) then |history| - LastEdge(history, |history|) else 0)
    && c.count <= 200_040_001
    && (c.is10m <==> Live(history) && 19 <= LastDistance(history) <= 21)
    && (c.isPps <==> Live(history) && 199_960_000 <= LastDistance(history) <= 200_040_000)
    && !(c.is10m && c.isPps)
  }

  /** For every edge history. */
  lemma {:induction false} ClassifierIsHistory(history: seq<bool>)
    ensures IsHistory(Classified(history), history)
  {
    if history != [] {
      var past := history[..|history| - 1];
      ClassifierIsHistory(past);
      ClassifyFollows(Classified(past), history);
    }
  }

  lemma ClassifyFollows(c: Classifier, history: seq<bool>)
    requires history != [] && IsHistory(c, history[..|history| - 1])
    ensures IsHistory(Classify(c, history[|history| - 1]), history)
  {
    LastEdgesAdvance(history);
  }

  lemma LastEdgesAdvance(history: seq<bool>)
    requires history != []
    ensures var past := history[..|history| - 1];
            var last := LastEdge(past, |past|);
            if history[|past|] then
              && LastEdge(history, |history|) == |past|
              && LastDistance(history) == if last < 0 then 0 else |past| - last
            else
              && LastEdge(history, |history|) == last
              && LastDistance(history) == LastDistance(past)
  {
    var past := history[..|history| - 1];
    var last := LastEdge(past, |past|);
    LastEdgeOfPrefix(history, |past|);
    if 0 <= last {
      LastEdgeOfPrefix(history, last);
    }
  }

  // ---------------------------------------------------------------------
  // Divider bounds across one change of classification.

  /** With the R divider in range, the next cycle leaves it in range exactly unless 10 MHz turns to PPS part-way through a count. */
  lemma RBoundSurvives(c: Classifier, r: Divider, rising: bool)
    requires c.Valid() && r.count < c.RDivider()
    requires Classify(c, rising).Valid() && c.count <= 200_040_001
    ensures var next := Classify(c, rising);
            Divide(r, true, rising, c.RDivider(), 0x100_0000).count < next.RDivider()
            <==> !(c.is10m && !next.is10m && r.count != 999_999)
  {
  }

  /** The N divider likewise, when PPS turns to 10 MHz above the smaller divider. */
  lemma NBoundSurvives(c: Classifier, n: Divider, rising: bool, tick: bool)
    requires c.Valid() && n.count < c.NDivider()
    requires Classify(c, rising).Valid()
    ensures var next := Classify(c, rising);
            var after := if tick then n.count + 1 else n.count;
            Divide(n, true, tick, c.NDivider(), 0x400_0000).count < next.NDivider()
            <==> !(!c.is10m && next.is10m && 2_000_000 <= after < 20_000_000)
  {
  }

  // ---------------------------------------------------------------------
  // Over runs.

  /** While a reference is accepted both counts are below their dividers. */
  predicate InRange(s: State) {
    s.classifier.Valid() ==>
      if s.classifier.is10m then s.r.count < 1_000_000 && s.n.count < 2_000_000
      else s.r.count < 1 && s.n.count < 20_000_000
  }

  /** Both counts are in range in every cycle of the run, first and last included. */
  predicate AlwaysInRange(holdoverDac: Word16, s: State, samples: seq<bool>)
    decreases samples
  {
    InRange(s) && (samples == [] || AlwaysInRange(holdoverDac, Step(holdoverDac, s, samples[0]), samples[1..]))
  }

  /**
   The next cycle turns 10 MHz to PPS part-way through the R divider's count, or
   PPS to 10 MHz with the N divider's above the smaller divider.
   */
  predicate Overruns(s: State) {
    var c, next := s.classifier, Classify(s.classifier, s.external.Rising());
    var after := if s.reference == 0 then s.n.count + 1 else s.n.count;
    || (c.is10m && next.isPps && s.r.count != 999_999)
    || (c.isPps && next.is10m && 2_000_000 <= after < 20_000_000)
  }

  predicate NeverOverruns(holdoverDac: Word16, s: State, samples: seq<bool>)
    decreases samples
  {
    samples == [] || (!Overruns(s) && NeverOverruns(holdoverDac, Step(holdoverDac, s, samples[0]), samples[1..]))
  }

  lemma StepInRange(holdoverDac: Word16, s: State, sample: bool)
    requires ClassifierInv(s.classifier) && InRange(s)
    ensures ClassifierInv(Step(holdoverDac, s, sample).classifier)
    ensures InRange(Step(holdoverDac, s, sample)) <==> !Overruns(s)
  {
    var rising := s.external.Rising();
    ClassifyKeepsInv(s.classifier, rising);
    if s.classifier.Valid() && Classify(s.classifier, rising).Valid() {
      RBoundSurvives(s.classifier, s.r, rising);
      NBoundSurvives(s.classifier, s.n, rising, s.reference == 0);
    }
  }

  lemma {:induction false} RunInRange(holdoverDac: Word16, s: State, samples: seq<bool>)
    requires ClassifierInv(s.classifier) && InRange(s)
    ensures AlwaysInRange(holdoverDac, s, samples) <==> NeverOverruns(holdoverDac, s, samples)
    decreases samples
  {
    if samples != [] {
      var next := Step(holdoverDac, s, samples[0]);
      StepInRange(holdoverDac, s, samples[0]);
      if InRange(next) {
        RunInRange(holdoverDac, next, samples[1..]);
      }
    }
  }

  /** In a run from reset both counts stay in range exactly when no cycle makes one of the two changes. */
  lemma CountsStayInRange(holdoverDac: Word16, reference: nat, samples: seq<bool>)
    requires reference < 10
    ensures AlwaysInRange(holdoverDac, Reset(holdoverDac, reference), samples)
       <==> NeverOverruns(holdoverDac, Reset(holdoverDac, reference), samples)
  {
    RunInRange(holdoverDac, Reset(holdoverDac, reference), samples);
  }
}
