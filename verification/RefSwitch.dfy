/**
 Runs of the PLL from reset in which the reference changes directly from one
 kind to the other and leaves a divider past its end, and what is lost then.
 */
module RefSwitch {
  import opened RegisterMap
  import opened RefPll
  import opened RefPllInvariant

  // ---------------------------------------------------------------------
  // Classifier and dividers alone, driven by the rising-edge wire.

  datatype Front = Front(c: Classifier, reference: nat, r: Divider, n: Divider) {
    /** Cycles counted by the N divider, ten a tick. */
    function Counted(): nat {
      10 * n.count + (reference + 9) % 10
    }
  }

  function FrontOf(s: State): Front {
    Front(s.classifier, s.reference, s.r, s.n)
  }

  function FrontStep(f: Front, rising: bool): Front {
    Front(Classify(f.c, rising), (f.reference + 1) % 10,
          Divide(f.r, f.c.Valid(), rising, f.c.RDivider(), 0x100_0000),
          Divide(f.n, f.c.Valid(), f.reference == 0, f.c.NDivider(), 0x400_0000))
  }

  function FrontRun(f: Front, edges: seq<bool>): Front
    decreases edges
  {
    if edges == [] then f else FrontRun(FrontStep(f, edges[0]), edges[1..])
  }

  function FrontReset(reference: nat): Front {
    Front(Classifier(false, 0, false, false), reference, Divider(0, false), Divider(0, false))
  }

  lemma {:induction false} FrontRunConcat(f: Front, a: seq<bool>, b: seq<bool>)
    ensures FrontRun(f, a + b) == FrontRun(FrontRun(f, a), b)
    decreases a
  {
    if a == [] {
      assert a + b == b;
    } else {
      assert (a + b)[1..] == a[1..] + b;
      FrontRunConcat(FrontStep(f, a[0]), a[1..], b);
    }
  }

  lemma FrontOne(f: Front, edge: bool)
    ensures FrontRun(f, [edge]) == FrontStep(f, edge)
  {
    assert [edge][1..] == [];
    assert FrontRun(f, [edge]) == FrontRun(FrontStep(f, edge), []);
  }

  /** The rising-edge wire, cycle by cycle. */
  function Rises(external: Sync4, samples: seq<bool>): seq<bool>
    decreases samples
  {
    if samples == [] then [] else [external.Rising()] + Rises(external.Shift(samples[0]), samples[1..])
  }

  /** Every run of the PLL drives its classifier and dividers with that wire. */
  lemma {:induction false} FrontOfRun(holdoverDac: Word16, s: State, samples: seq<bool>)
    ensures FrontOf(Run(holdoverDac, s, samples)) == FrontRun(FrontOf(s), Rises(s.external, samples))
    decreases samples
  {
    if samples != [] {
      var next := Step(holdoverDac, s, samples[0]);
      var edges := Rises(s.external, samples);
      assert edges[1..] == Rises(next.external, samples[1..]);
      assert FrontStep(FrontOf(s), edges[0]) == FrontOf(next);
      FrontOfRun(holdoverDac, next, samples[1..]);
    }
  }

  // ---------------------------------------------------------------------
  // A pin for every history without neighbouring edges.

  /** No two neighbouring cycles with an edge. */
  predicate Apart(edges: seq<bool>) {
    forall i :: 0 < i < |edges| ==> !(edges[i - 1] && edges[i])
  }

  /** The pin is high in the cycles of the edges, and three more bring the last out of the synchroniser. */
  function PinFor(edges: seq<bool>): seq<bool> {
    edges + [false, false, false]
  }

  lemma RisesFirst(external: Sync4, sample: bool, samples: seq<bool>)
    ensures Rises(external, [sample] + samples) == [external.Rising()] + Rises(external.Shift(sample), samples)
  {
    assert ([sample] + samples)[1..] == samples;
  }

  lemma RisesOfThree(e: Sync4)
    requires Apart([e.s3, e.s2, e.s1, e.s0])
    ensures Rises(e, [false, false, false]) == [e.s2, e.s1, e.s0]
  {
    var four := [e.s3, e.s2, e.s1, e.s0];
    assert !(four[0] && four[1]) && !(four[1] && four[2]) && !(four[2] && four[3]);
    var e1 := e.Shift(false);
    var e2 := e1.Shift(false);
    assert [false, false, false] == [false] + ([false] + ([false] + []));
    RisesFirst(e, false, [false] + ([false] + []));
    RisesFirst(e1, false, [false] + []);
    RisesFirst(e2, false, []);
  }

  lemma ShiftsApart(e: Sync4, edges: seq<bool>)
    requires edges != [] && Apart([e.s3, e.s2, e.s1, e.s0] + edges)
    ensures var next := e.Shift(edges[0]);
            && (e.Rising() <==> e.s2)
            && Apart([next.s3, next.s2, next.s1, next.s0] + edges[1..])
  {
    var all, next := [e.s3, e.s2, e.s1, e.s0] + edges, e.Shift(edges[0]);
    assert !(all[0] && all[1]);
    assert [next.s3, next.s2, next.s1, next.s0] + edges[1..] == all[1..];
  }

  lemma {:induction false} RisesOfPin(e: Sync4, edges: seq<bool>)
    requires Apart([e.s3, e.s2, e.s1, e.s0] + edges)
    ensures Rises(e, PinFor(edges)) == [e.s2, e.s1, e.s0] + edges
    decreases |edges|
  {
    var held := [e.s3, e.s2, e.s1, e.s0];
    if edges == [] {
      assert held + edges == held && PinFor(edges) == [false, false, false];
      RisesOfThree(e);
    } else {
      var next, rest := e.Shift(edges[0]), edges[1..];
      ShiftsApart(e, edges);
      RisesOfPin(next, rest);
      assert PinFor(edges) == [edges[0]] + PinFor(rest);
      RisesFirst(e, edges[0], PinFor(rest));
      assert [e.s2] + ([next.s2, next.s1, next.s0] + rest) == [e.s2, e.s1, e.s0] + edges;
    }
  }

  /** A cycle without an edge after reset only turns the divided clock. */
  lemma IdleFirst(reference: nat, idle: seq<bool>)
    ensures FrontRun(FrontReset(reference), [false] + idle) == FrontRun(FrontReset((reference + 1) % 10), idle)
  {
    FrontRunConcat(FrontReset(reference), [false], idle);
    FrontOne(FrontReset(reference), false);
  }

  lemma TurnsThree(reference: nat)
    ensures (((reference + 1) % 10 + 1) % 10 + 1) % 10 == (reference + 3) % 10
  {
  }

  lemma ThreeIdle(reference: nat)
    ensures FrontRun(FrontReset(reference), [false, false, false]) == FrontReset((reference + 3) % 10)
  {
    assert [false, false, false] == [false] + ([false] + ([false] + []));
    IdleFirst(reference, [false] + ([false] + []));
    IdleFirst((reference + 1) % 10, [false] + []);
    IdleFirst(((reference + 1) % 10 + 1) % 10, []);
    TurnsThree(reference);
  }

  /** So every such history is one that a pin drives the PLL with, from reset. */
  lemma PinDrives(holdoverDac: Word16, reference: nat, edges: seq<bool>)
    requires Apart(edges)
    ensures FrontOf(Run(holdoverDac, Reset(holdoverDac, reference), PinFor(edges)))
         == FrontRun(FrontReset((reference + 3) % 10), edges)
  {
    var reset, three := Reset(holdoverDac, reference), [false, false, false];
    FrontOfRun(holdoverDac, reset, PinFor(edges));
    assert Apart([false, false, false, false] + edges);
    RisesOfPin(reset.external, edges);
    FrontRunConcat(FrontReset(reference), three, edges);
    ThreeIdle(reference);
  }

  // ---------------------------------------------------------------------
  // Histories.

  /** An edge after `gap` cycles without one. */
  function EdgeAfter(gap: nat): seq<bool> {
    seq(gap, _ => false) + [true]
  }

  /** That many edges, each after `gap` cycles without one. */
  function Edges(edges: nat, gap: nat): seq<bool> {
    if edges == 0 then [] else Edges(edges - 1, gap) + EdgeAfter(gap)
  }

  /** Another edge after at least one cycle keeps the edges apart. */
  lemma ApartEdgeAfter(edges: seq<bool>, gap: nat)
    requires Apart(edges) && 0 < gap
    ensures Apart(edges + EdgeAfter(gap))
  {
  }

  lemma {:induction false} ApartEdges(before: seq<bool>, edges: nat, gap: nat)
    requires Apart(before) && 0 < gap
    ensures Apart(before + Edges(edges, gap))
  {
    if edges == 0 {
      assert before + Edges(edges, gap) == before;
    } else {
      ApartEdges(before, edges - 1, gap);
      ApartEdgeAfter(before + Edges(edges - 1, gap), gap);
      assert before + Edges(edges, gap) == (before + Edges(edges - 1, gap)) + EdgeAfter(gap);
    }
  }

  // ---------------------------------------------------------------------
  // From 10 MHz to PPS.

  /** The R divider keeps its count, if it may have one, through cycles without an edge. */
  lemma {:induction false} QuietR(f: Front, gap: nat)
    requires f.c.seen && f.c.count + gap <= REF_PPS_MAX + 1
    requires !f.c.Valid() ==> f.r.count == 0
    ensures var g := FrontRun(f, seq(gap, _ => false));
            g.c == f.c.(count := f.c.count + gap) && g.r.count == f.r.count
    decreases gap
  {
    var quiet := seq(gap, _ => false);
    if gap == 0 {
      assert quiet == [];
    } else {
      assert quiet[1..] == seq(gap - 1, _ => false);
      QuietR(FrontStep(f, false), gap - 1);
    }
  }

  /** An edge, and what it makes of the reference. */
  lemma EdgeR(f: Front)
    requires f.c.seen && (f.c.Valid() ==> f.r.count + 1 < f.c.RDivider())
    ensures var g := FrontStep(f, true);
            && g.c == Classifier(true, 1, In10mWindow(f.c.count), InPpsWindow(f.c.count))
            && g.r.count == if f.c.Valid() then f.r.count + 1 else 0
  {
  }

  lemma EdgeAfterR(f: Front, gap: nat)
    requires f.c.seen && f.c.count == 1 && gap <= REF_PPS_MAX
    requires !f.c.Valid() ==> f.r.count == 0
    requires f.c.Valid() ==> f.r.count + 1 < f.c.RDivider()
    ensures var g := FrontRun(f, EdgeAfter(gap));
            && g.c == Classifier(true, 1, In10mWindow(gap + 1), InPpsWindow(gap + 1))
            && g.r.count == if f.c.Valid() then f.r.count + 1 else 0
  {
    var quiet := FrontRun(f, seq(gap, _ => false));
    QuietR(f, gap);
    FrontRunConcat(f, seq(gap, _ => false), [true]);
    FrontOne(quiet, true);
    EdgeR(quiet);
  }

  lemma {:induction false} TenMegahertzCounts(f: Front, edges: nat, gap: nat)
    requires f.c == Classifier(true, 1, false, false) && f.r.count == 0
    requires 1 <= edges <= RDIV_10M && In10mWindow(gap + 1)
    ensures var g := FrontRun(f, Edges(edges, gap));
            g.c == Classifier(true, 1, true, false) && g.r.count == edges - 1
  {
    var before := FrontRun(f, Edges(edges - 1, gap));
    FrontRunConcat(f, Edges(edges - 1, gap), EdgeAfter(gap));
    if edges == 1 {
      assert Edges(edges - 1, gap) == [];
      assert before == f;
    } else {
      TenMegahertzCounts(f, edges - 1, gap);
    }
    EdgeAfterR(before, gap);
  }

  /** An edge, then that many at 10 MHz, then one about a second later. */
  function SwitchToPps(edges: nat, gap: nat, second: nat): seq<bool> {
    [true] + Edges(edges, gap) + EdgeAfter(second)
  }

  lemma SwitchCountsR(reference: nat, edges: nat, gap: nat, second: nat)
    requires 2 <= edges < 1_000_000 && 19 <= gap + 1 <= 21 && 199_960_000 <= second + 1 <= 200_040_000
    ensures var f := FrontRun(FrontReset(reference), SwitchToPps(edges, gap, second));
            f.c == Classifier(true, 1, false, true) && f.r.count == edges
  {
    var reset := FrontReset(reference);
    var first := FrontStep(reset, true);
    FrontOne(reset, true);
    FrontRunConcat(reset, [true], Edges(edges, gap));
    FrontRunConcat(reset, [true] + Edges(edges, gap), EdgeAfter(second));
    TenMegahertzCounts(first, edges, gap);
    EdgeAfterR(FrontRun(first, Edges(edges, gap)), second);
  }

  /**
   A 10 MHz reference for less than one division, then an edge about a second
   later, all on the pin and from reset: PPS is recognised with the R divider
   already past its end.
   */
  lemma DirectSwitchOverrunsR(holdoverDac: Word16, reference: nat, edges: nat, gap: nat, second: nat)
    requires 2 <= edges < 1_000_000 && 19 <= gap + 1 <= 21 && 199_960_000 <= second + 1 <= 200_040_000
    ensures var s := Run(holdoverDac, Reset(holdoverDac, reference), PinFor(SwitchToPps(edges, gap, second)));
            s.classifier == Classifier(true, 1, false, true) && s.r.count == edges > 1 == s.classifier.RDivider()
  {
    ApartEdges([true], edges, gap);
    ApartEdgeAfter([true] + Edges(edges, gap), second);
    PinDrives(holdoverDac, reference, SwitchToPps(edges, gap, second));
    SwitchCountsR((reference + 3) % 10, edges, gap, second);
  }

  /** A reference of this kind is accepted throughout, first and last cycle included. */
  predicate Stays(holdoverDac: Word16, s: State, samples: seq<bool>, is10m: bool)
    decreases samples
  {
    && s.classifier.Valid() && s.classifier.is10m == is10m
    && (samples == [] || Stays(holdoverDac, Step(holdoverDac, s, samples[0]), samples[1..], is10m))
  }

  /** The number of edges in a history. */
  function EdgeCount(edges: seq<bool>): nat {
    if edges == [] then 0 else (if edges[0] then 1 else 0) + EdgeCount(edges[1..])
  }

  /**
   From there the divided reference is lost: while PPS lasts, each edge counts
   and none divides, for as many edges as it takes the 24-bit counter to wrap.
   */
  lemma {:induction false} OverrunStaysSilent(holdoverDac: Word16, s: State, samples: seq<bool>)
    requires Stays(holdoverDac, s, samples, false) && 1 <= s.r.count
    requires s.r.count + EdgeCount(Rises(s.external, samples)) < 0x100_0000
    ensures var end := Run(holdoverDac, s, samples);
            && end.r.count == s.r.count + EdgeCount(Rises(s.external, samples))
            && (samples != [] ==> !end.r.rising)
    decreases samples
  {
    if samples != [] {
      var next := Step(holdoverDac, s, samples[0]);
      var edges := Rises(s.external, samples);
      assert edges[0] == s.external.Rising() && edges[1..] == Rises(next.external, samples[1..]);
      assert !next.r.rising && next.r.count == s.r.count + if edges[0] then 1 else 0;
      OverrunStaysSilent(holdoverDac, next, samples[1..]);
    }
  }

  // ---------------------------------------------------------------------
  // From PPS to 10 MHz.

  lemma TurnsOne(reference: nat)
    requires reference < 10
    ensures (reference + 1) % 10 == if reference == 9 then 0 else reference + 1
    ensures (reference + 9) % 10 == if reference == 0 then 9 else reference - 1
    ensures ((reference + 1) % 10 + 9) % 10 == reference
  {
  }

  /** Short of the divider's end, and past it short of the counter's, every cycle counts. */
  lemma CountsOn(f: Front, rising: bool)
    requires f.c.Valid() && f.reference < 10
    requires if f.n.count < f.c.NDivider() then f.Counted() + 1 < 10 * f.c.NDivider()
             else f.Counted() + 1 < 10 * 0x400_0000
    ensures var next := FrontStep(f, rising);
            next.reference < 10 && !next.n.rising && next.Counted() == f.Counted() + 1
  {
    TurnsOne(f.reference);
    assert FrontStep(f, rising).n == if f.reference == 0 then Divider(f.n.count + 1, false) else Divider(f.n.count, false);
  }

  /** PPS accepted and its clock divider counting, `counted` cycles so far. */
  predicate CountingPps(f: Front, count: nat, counted: nat) {
    f.c == Classifier(true, count, false, true) && f.reference < 10 && f.Counted() == counted
  }

  lemma PpsCountsOne(f: Front, count: nat, counted: nat)
    requires CountingPps(f, count, counted) && counted + 1 < 10 * NDIV_PPS && count <= REF_PPS_MAX
    ensures CountingPps(FrontStep(f, false), count + 1, counted + 1)
  {
    CountsOn(f, false);
  }

  lemma {:induction false} PpsCounts(f: Front, count: nat, counted: nat, gap: nat)
    requires CountingPps(f, count, counted) && counted + gap < 10 * NDIV_PPS && count + gap <= REF_PPS_MAX + 1
    ensures CountingPps(FrontRun(f, seq(gap, _ => false)), count + gap, counted + gap)
    decreases gap
  {
    var quiet := seq(gap, _ => false);
    if gap == 0 {
      assert quiet == [];
    } else {
      PpsCountsOne(f, count, counted);
      assert quiet[1..] == seq(gap - 1, _ => false);
      PpsCounts(FrontStep(f, false), count + 1, counted + 1, gap - 1);
    }
  }

  lemma PpsEdgeAfter(f: Front, counted: nat, gap: nat)
    requires CountingPps(f, 1, counted) && counted + gap + 1 < 10 * NDIV_PPS && gap <= REF_PPS_MAX
    ensures var g := FrontRun(f, EdgeAfter(gap));
            && g.c == Classifier(true, 1, In10mWindow(gap + 1), InPpsWindow(gap + 1))
            && g.reference < 10 && g.Counted() == counted + gap + 1
  {
    var quiet := FrontRun(f, seq(gap, _ => false));
    PpsCounts(f, 1, counted, gap);
    FrontRunConcat(f, seq(gap, _ => false), [true]);
    FrontOne(quiet, true);
    CountsOn(quiet, true);
  }

  /** One edge seen, no reference accepted, the divider held at zero. */
  predicate Unaccepted(f: Front, count: nat) {
    f.c == Classifier(true, count, false, false) && f.reference < 10 && f.n.count == 0
  }

  lemma {:induction false} UnacceptedWaits(f: Front, count: nat, gap: nat)
    requires Unaccepted(f, count) && count + gap <= REF_PPS_MAX + 1
    ensures Unaccepted(FrontRun(f, seq(gap, _ => false)), count + gap)
    decreases gap
  {
    var quiet := seq(gap, _ => false);
    if gap == 0 {
      assert quiet == [];
    } else {
      assert quiet[1..] == seq(gap - 1, _ => false);
      UnacceptedWaits(FrontStep(f, false), count + 1, gap - 1);
    }
  }

  lemma PpsIsAccepted(f: Front, gap: nat)
    requires Unaccepted(f, 1) && InPpsWindow(gap + 1)
    ensures var g := FrontRun(f, EdgeAfter(gap));
            g.Counted() < 10 && CountingPps(g, 1, g.Counted())
  {
    UnacceptedWaits(f, 1, gap);
    FrontRunConcat(f, seq(gap, _ => false), [true]);
    FrontOne(FrontRun(f, seq(gap, _ => false)), true);
  }

  /** An edge, then two about a second apart each, then one more. */
  function SwitchTo10m(first: nat, second: nat, third: nat): seq<bool> {
    [true] + EdgeAfter(first) + EdgeAfter(second) + EdgeAfter(third)
  }

  lemma SwitchCountsN(reference: nat, first: nat, second: nat, third: nat)
    requires reference < 10 && InPpsWindow(first + 1) && InPpsWindow(second + 1) && In10mWindow(third + 1)
    requires second + third + 2 <= 199_999_990
    ensures var f := FrontRun(FrontReset(reference), SwitchTo10m(first, second, third));
            f.c == Classifier(true, 1, true, false) && f.n.count >= 19_996_001 && f.reference < 10
  {
    var reset := FrontReset(reference);
    FrontRunConcat(reset, [true], EdgeAfter(first));
    FrontRunConcat(reset, [true] + EdgeAfter(first), EdgeAfter(second));
    FrontRunConcat(reset, [true] + EdgeAfter(first) + EdgeAfter(second), EdgeAfter(third));
    FrontOne(reset, true);
    var seen := FrontStep(reset, true);
    PpsIsAccepted(seen, first);
    var accepted := FrontRun(seen, EdgeAfter(first));
    PpsEdgeAfter(accepted, accepted.Counted(), second);
    var again := FrontRun(accepted, EdgeAfter(second));
    PpsEdgeAfter(again, again.Counted(), third);
  }

  /**
   PPS for two periods, the second short of a full count, then an edge 19 to 21
   cycles later, all on the pin and from reset: 10 MHz is recognised with the N
   divider nearly ten times past its end, at every phase of the divided clock.
   */
  lemma DirectSwitchOverrunsN(holdoverDac: Word16, reference: nat, first: nat, second: nat, third: nat)
    requires 199_960_000 <= first + 1 <= 200_040_000 && 199_960_000 <= second + 1 <= 200_040_000
    requires 19 <= third + 1 <= 21 && second + third + 2 <= 199_999_990
    ensures var s := Run(holdoverDac, Reset(holdoverDac, reference), PinFor(SwitchTo10m(first, second, third)));
            && s.classifier == Classifier(true, 1, true, false)
            && s.n.count >= 19_996_001 > 2_000_000 == s.classifier.NDivider() && s.reference < 10
  {
    ApartEdgeAfter([true], first);
    ApartEdgeAfter([true] + EdgeAfter(first), second);
    ApartEdgeAfter([true] + EdgeAfter(first) + EdgeAfter(second), third);
    PinDrives(holdoverDac, reference, SwitchTo10m(first, second, third));
    SwitchCountsN((reference + 3) % 10, first, second, third);
  }

  /** From there the divided clock is lost: while 10 MHz lasts, no tick divides until the 26-bit counter wraps. */
  lemma {:induction false} OverrunStopsClock(holdoverDac: Word16, s: State, samples: seq<bool>)
    requires Stays(holdoverDac, s, samples, true) && NDIV_10M <= s.n.count && s.reference < 10
    requires SinceN(s) + |samples| < 10 * 0x400_0000
    ensures var end := Run(holdoverDac, s, samples);
            && SinceN(end) == SinceN(s) + |samples|
            && (samples != [] ==> !end.n.rising)
    decreases samples
  {
    if samples != [] {
      var next := Step(holdoverDac, s, samples[0]);
      CountsOn(FrontOf(s), s.external.Rising());
      assert FrontOf(next) == FrontStep(FrontOf(s), s.external.Rising());
      OverrunStopsClock(holdoverDac, next, samples[1..]);
    }
  }
}
