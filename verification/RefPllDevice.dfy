/**
 The PLL with the registers that bring it its reference clock: the second reset
 synchroniser and the halved 40 MHz clock.  From the first cycle that can
 matter they amount to one tick every ten cycles, so every run of the device is
 a run of the PLL at one phase of that count.
 */
module RefPllDevice {
  import opened Basics
  import opened Bits
  import opened RegisterMap
  import opened RefPll

  // ---------------------------------------------------------------------
  // The reference clock.

  /** `release` and `div2` are clocked at 40 MHz; `sync` samples `div2` at 200 MHz. */
  datatype ReferenceClock = ReferenceClock(untilEdge: nat, release: Sync3, div2: bool, sync: Sync4)

  function ClockReset(untilEdge: nat): ReferenceClock {
    ReferenceClock(untilEdge, Sync3(true, true, true), false, Sync4(false, false, false, false))
  }

  /** One sample clock cycle, with an edge of the 40 MHz clock in every fifth. */
  function ClockStep(k: ReferenceClock): ReferenceClock {
    var sync := k.sync.Shift(k.div2);
    if k.untilEdge == 0 then ReferenceClock(4, k.release.Shift(false), !k.release.s2 && !k.div2, sync)
    else k.(untilEdge := k.untilEdge - 1, sync := sync)
  }

  datatype Device = Device(clock: ReferenceClock, pll: State)

  function DeviceStep(holdoverDac: Word16, d: Device, sample: bool): Device {
    Device(ClockStep(d.clock), StepWith(holdoverDac, d.pll, sample, d.clock.sync.Rising()))
  }

  function DeviceRun(holdoverDac: Word16, d: Device, samples: seq<bool>): Device
    decreases samples
  {
    if samples == [] then d else DeviceRun(holdoverDac, DeviceStep(holdoverDac, d, samples[0]), samples[1..])
  }

  /** The phase of the count of ten that a phase of the 40 MHz clock gives. */
  function StartPhase(untilEdge: nat): nat {
    (11 + 9 * untilEdge) % 10
  }

  function DeviceReset(holdoverDac: Word16, untilEdge: nat): Device {
    Device(ClockReset(untilEdge), Reset(holdoverDac, StartPhase(untilEdge)))
  }

  // ---------------------------------------------------------------------
  // The clock's registers as functions of time.

  /** 40 MHz edges before cycle `t`, the first being in cycle `e`. */
  function EdgesBefore(e: nat, t: nat): nat
    requires e < 5
  {
    (t + 4 - e) / 5
  }

  /** The halved clock in cycle `t`: it first rises at the fourth edge. */
  predicate Level(e: nat, t: int)
    requires e < 5
  {
    0 <= t && 4 <= EdgesBefore(e, t) && EdgesBefore(e, t) % 2 == 0
  }

  predicate ClockAt(k: ReferenceClock, e: nat, t: nat) {
    && e < 5
    && k.untilEdge == (e + 4 * t) % 5
    && k.release == Sync3(EdgesBefore(e, t) < 1, EdgesBefore(e, t) < 2, EdgesBefore(e, t) < 3)
    && k.div2 == Level(e, t)
    && k.sync == Sync4(Level(e, t - 1), Level(e, t - 2), Level(e, t - 3), Level(e, t - 4))
  }

  lemma FivesAreUnique(x: nat, q: nat, r: nat)
    requires x == 5 * q + r && r < 5
    ensures x / 5 == q && x % 5 == r
  {
  }

  /** Both remainders from one: `t + 4 - e` is `5 * q + r` when `e + 4 * t` leaves `4 - r`. */
  lemma EdgesAndWait(e: nat, t: nat, q: nat, r: nat)
    requires e < 5 && t + 4 - e == 5 * q + r && r < 5
    ensures EdgesBefore(e, t) == q && (e + 4 * t) % 5 == 4 - r
  {
    FivesAreUnique(t + 4 - e, q, r);
    // e + 4 * t is 5 * (e + 4 * q - 4 + r) + 4 - r.
    FivesAreUnique(e + 4 * t, e + 4 * q + r - 4, 4 - r);
  }

  lemma EdgesAdvance(e: nat, t: nat)
    requires e < 5
    ensures EdgesBefore(e, t + 1) == EdgesBefore(e, t) + if (e + 4 * t) % 5 == 0 then 1 else 0
    ensures (e + 4 * (t + 1)) % 5 == if (e + 4 * t) % 5 == 0 then 4 else (e + 4 * t) % 5 - 1
  {
    var q, r := (t + 4 - e) / 5, (t + 4 - e) % 5;
    EdgesAndWait(e, t, q, r);
    if r == 4 {
      EdgesAndWait(e, t + 1, q + 1, 0);
    } else {
      EdgesAndWait(e, t + 1, q, r + 1);
    }
  }

  lemma ClockAdvances(k: ReferenceClock, e: nat, t: nat)
    requires ClockAt(k, e, t)
    ensures ClockAt(ClockStep(k), e, t + 1)
  {
    EdgesAdvance(e, t);
  }

  /** From cycle 23 on the synchronised clock rises exactly every ten cycles. */
  lemma RisesEveryTen(e: nat, t: nat)
    requires e < 5 && 23 <= t
    ensures Level(e, t - 3) && !Level(e, t - 4) <==> (StartPhase(e) + t) % 10 == 0
  {
    var q, r := (t - e) / 10, (t - e) % 10;
    HalvesAgree(e, t, q, r);
    TensAgree(e, t, q, r);
  }

  /** The halved clock three and four cycles ago, in terms of `t - e` modulo ten. */
  lemma HalvesAgree(e: nat, t: nat, q: nat, r: nat)
    requires e < 5 && 23 <= t && t - e == 10 * q + r && r < 10
    ensures Level(e, t - 3) && !Level(e, t - 4) <==> r == 9
  {
    if r < 4 {
      FivesAreUnique(t + 1 - e, 2 * q, r + 1);
      FivesAreUnique(t - e, 2 * q, r);
    } else if r == 4 {
      FivesAreUnique(t + 1 - e, 2 * q + 1, 0);
      FivesAreUnique(t - e, 2 * q, 4);
    } else if r < 9 {
      FivesAreUnique(t + 1 - e, 2 * q + 1, r - 4);
      FivesAreUnique(t - e, 2 * q + 1, r - 5);
    } else {
      FivesAreUnique(t + 1 - e, 2 * q + 2, 0);
      FivesAreUnique(t - e, 2 * q + 1, 4);
    }
  }

  lemma TensAgree(e: nat, t: nat, q: nat, r: nat)
    requires e < 5 && t - e == 10 * q + r && r < 10
    ensures (StartPhase(e) + t) % 10 == 0 <==> r == 9
  {
    assert e == 0 || e == 1 || e == 2 || e == 3 || e == 4;
  }

  // ---------------------------------------------------------------------
  // No reference is accepted before cycle 23.

  predicate Early(s: State, t: nat) {
    && (s.external.s0 ==> 1 <= t) && (s.external.s1 ==> 2 <= t) && (s.external.s2 ==> 3 <= t)
    && (s.classifier.seen ==> 4 <= t && s.classifier.count <= t - 3)
    && (s.classifier.Valid() ==> 23 <= t)
  }

  lemma EarlyAdvances(holdoverDac: Word16, s: State, t: nat, sample: bool, tick: bool)
    requires Early(s, t)
    ensures Early(StepWith(holdoverDac, s, sample, tick), t + 1)
  {
  }

  /** Where no reference is accepted the tick is not looked at. */
  lemma SameTick(holdoverDac: Word16, s: State, sample: bool, tick: bool)
    requires s.classifier.Valid() ==> tick == (s.reference == 0)
    ensures StepWith(holdoverDac, s, sample, tick) == Step(holdoverDac, s, sample)
  {
  }

  /** Clock, PLL and count of ten at cycle `t`, the count having started at `p`. */
  predicate InStep(d: Device, e: nat, p: nat, t: nat) {
    ClockAt(d.clock, e, t) && Early(d.pll, t) && d.pll.reference == (p + t) % 10
  }

  lemma TicksAgree(d: Device, e: nat, p: nat, t: nat)
    requires InStep(d, e, p, t) && p == StartPhase(e)
    ensures d.pll.classifier.Valid() ==> d.clock.sync.Rising() == (d.pll.reference == 0)
  {
    if d.pll.classifier.Valid() {
      RisesEveryTen(e, t);
    }
  }

  lemma CountAdvances(p: nat, t: nat)
    ensures (p + t + 1) % 10 == ((p + t) % 10 + 1) % 10
  {
  }

  lemma StaysInStep(holdoverDac: Word16, d: Device, e: nat, p: nat, t: nat, sample: bool)
    requires InStep(d, e, p, t)
    ensures InStep(DeviceStep(holdoverDac, d, sample), e, p, t + 1)
  {
    var next := DeviceStep(holdoverDac, d, sample);
    assert ClockAt(next.clock, e, t + 1) by {
      ClockAdvances(d.clock, e, t);
    }
    assert Early(next.pll, t + 1) by {
      EarlyAdvances(holdoverDac, d.pll, t, sample, d.clock.sync.Rising());
    }
    CountAdvances(p, t);
  }

  lemma {:induction false} DeviceFrom(holdoverDac: Word16, d: Device, e: nat, p: nat, t: nat, samples: seq<bool>)
    requires InStep(d, e, p, t) && p == StartPhase(e)
    ensures DeviceRun(holdoverDac, d, samples).pll == Run(holdoverDac, d.pll, samples)
    decreases samples
  {
    if samples != [] {
      TicksAgree(d, e, p, t);
      SameTick(holdoverDac, d.pll, samples[0], d.clock.sync.Rising());
      StaysInStep(holdoverDac, d, e, p, t, samples[0]);
      DeviceFrom(holdoverDac, DeviceStep(holdoverDac, d, samples[0]), e, p, t + 1, samples[1..]);
    }
  }

  lemma ClockStarts(e: nat)
    requires e < 5
    ensures ClockAt(ClockReset(e), e, 0)
  {
    assert EdgesBefore(e, 0) == 0;
  }

  /** At cycle `t`, which is 0: a parameter, so that the run is not unfolded from the concrete reset state. */
  lemma DeviceStarts(holdoverDac: Word16, e: nat, p: nat, t: nat, samples: seq<bool>)
    requires e < 5 && p == StartPhase(e) && t == 0
    ensures DeviceRun(holdoverDac, DeviceReset(holdoverDac, e), samples).pll == Run(holdoverDac, Reset(holdoverDac, p), samples)
  {
    var d := DeviceReset(holdoverDac, e);
    assert d.clock == ClockReset(e) && d.pll == Reset(holdoverDac, p);
    ClockStarts(e);
    DeviceFrom(holdoverDac, d, e, p, t, samples);
  }

  /** From reset, at every phase of the 40 MHz clock, the device runs as the PLL does at one phase of the count of ten. */
  lemma DeviceIsPll(holdoverDac: Word16, untilEdge: nat, samples: seq<bool>)
    requires untilEdge < 5
    ensures StartPhase(untilEdge) < 10
    ensures DeviceRun(holdoverDac, DeviceReset(holdoverDac, untilEdge), samples).pll
         == Run(holdoverDac, Reset(holdoverDac, StartPhase(untilEdge)), samples)
  {
    DeviceStarts(holdoverDac, untilEdge, StartPhase(untilEdge), 0, samples);
  }

  // ---------------------------------------------------------------------

  /** The PLL's registers, updated block by block; each block reads wires sampled before the edge. */
  class ReferencePll {
    const holdoverDac: Word16
    /** Sample clock cycles until the next edge of the 40 MHz clock, which comes every five. */
    var untilEdge: nat
    var resetRelease: Sync3
    var clockDiv2: bool
    var clockSync: Sync4
    var external: Sync4
    /** Cycles modulo ten since the divided clock last rose; no register of the hardware. */
    ghost var reference: nat
    var classifier: Classifier
    var r: Divider
    var n: Divider
    var period: Period
    var lead: Lead
    var loop: Loop
    var locked: bool

    ghost function Contents(): Device
      reads this
    {
      Device(ReferenceClock(untilEdge, resetRelease, clockDiv2, clockSync),
             State(external, reference, classifier, r, n, period, lead, loop, locked))
    }

    constructor (holdoverDac: Word16, untilEdge: nat)
      requires untilEdge < 5
      ensures this.holdoverDac == holdoverDac && Contents() == DeviceReset(holdoverDac, untilEdge)
    {
      this.holdoverDac := holdoverDac;
      this.untilEdge := untilEdge;
      resetRelease := Sync3(true, true, true);
      clockDiv2, clockSync := false, Sync4(false, false, false, false);
      reference := StartPhase(untilEdge);
      external := Sync4(false, false, false, false);
      classifier := Classifier(false, 0, false, false);
      r, n := Divider(0, false), Divider(0, false);
      period, lead := Period(0, 0), Lead(0, false, 0);
      loop, locked := RestingLoop(holdoverDac), false;
    }

    method Tick(sample: bool)
      modifies this
      ensures Contents() == DeviceStep(holdoverDac, old(Contents()), sample)
    {
      // The wires are sampled before the edge.
      var c, rising, rRising, nRising := classifier, external.Rising(), r.rising, n.rising;
      var clockRising := clockSync.Rising();
      BackEnd(c, rRising, nRising);
      FrontEnd(c, rising, clockRising, sample);
      SampleClock();
    }

    /** What follows the divided edges, on the wires as they were. */
    method BackEnd(c: Classifier, rRising: bool, nRising: bool)
      modifies this`locked, this`loop, this`lead, this`period
      ensures locked == (c.Valid() && old(loop).lockHistory.All())
      ensures loop == Control(holdoverDac, old(loop), c, rRising, old(lead).lead, old(period).frequencyError)
      ensures lead == Follow(old(lead), c.Valid(), rRising, nRising)
      ensures period == Measure(old(period), c.Valid(), rRising, c.ExpectedPeriod())
    {
      locked := c.Valid() && loop.lockHistory.All();
      ControlLoop(c, rRising);
      FollowLead(c.Valid(), rRising, nRising);
      MeasurePeriod(c.Valid(), rRising, c.ExpectedPeriod());
    }

    /** Dividers, classifier and synchroniser. */
    method FrontEnd(c: Classifier, rising: bool, clockRising: bool, sample: bool)
      modifies this`r, this`n, this`classifier, this`external, this`reference
      ensures r == Divide(old(r), c.Valid(), rising, c.RDivider(), 0x100_0000)
      ensures n == Divide(old(n), c.Valid(), clockRising, c.NDivider(), 0x400_0000)
      ensures classifier == Classify(old(classifier), rising)
      ensures external == old(external).Shift(sample) && reference == (old(reference) + 1) % 10
    {
      DivideReference(c.Valid(), rising, c.RDivider());
      DivideClock(c.Valid(), clockRising, c.NDivider());
      ClassifyReference(rising);
      external := external.Shift(sample);
      reference := (reference + 1) % 10;
    }

    /** The registers on and behind the 40 MHz clock. */
    method SampleClock()
      modifies this`untilEdge, this`resetRelease, this`clockDiv2, this`clockSync
      ensures ReferenceClock(untilEdge, resetRelease, clockDiv2, clockSync)
           == ClockStep(old(ReferenceClock(untilEdge, resetRelease, clockDiv2, clockSync)))
    {
      clockSync := clockSync.Shift(clockDiv2);
      if untilEdge == 0 {
        clockDiv2 := !resetRelease.s2 && !clockDiv2;
        resetRelease := resetRelease.Shift(false);
        untilEdge := 4;
      } else {
        untilEdge := untilEdge - 1;
      }
    }

    method ClassifyReference(rising: bool)
      modifies this`classifier
      ensures classifier == Classify(old(classifier), rising)
    {
      if rising {
        if classifier.seen {
          classifier := classifier.(is10m := In10mWindow(classifier.count), isPps := InPpsWindow(classifier.count));
        }
        classifier := classifier.(seen := true, count := 1);
      } else if classifier.seen {
        if classifier.count > REF_PPS_MAX {
          classifier := classifier.(seen := false, count := 0);
          classifier := classifier.(is10m := false, isPps := false);
        } else {
          classifier := classifier.(count := (classifier.count + 1) % 0x1_0000_0000);
        }
      }
    }

    method DivideReference(valid: bool, tick: bool, divider: nat)
      modifies this`r
      ensures r == Divide(old(r), valid, tick, divider, 0x100_0000)
    {
      if !valid {
        r := Divider(0, false);
      } else {
        r := r.(rising := false);
        if tick {
          if r.count == divider - 1 {
            r := Divider(0, true);
          } else {
            r := r.(count := (r.count + 1) % 0x100_0000);
          }
        }
      }
    }

    method DivideClock(valid: bool, tick: bool, divider: nat)
      modifies this`n
      ensures n == Divide(old(n), valid, tick, divider, 0x400_0000)
    {
      if !valid {
        n := Divider(0, false);
      } else {
        n := n.(rising := false);
        if tick {
          if n.count == divider - 1 {
            n := Divider(0, true);
          } else {
            n := n.(count := (n.count + 1) % 0x400_0000);
          }
        }
      }
    }

    method MeasurePeriod(valid: bool, rRising: bool, expected: int)
      modifies this`period
      ensures period == Measure(old(period), valid, rRising, expected)
    {
      if !valid {
        period := Period(0, 0);
      } else if rRising {
        period := period.(frequencyError := Wrap29(expected - period.measured));
        period := period.(measured := 1);
      } else {
        period := period.(measured := Wrap29(period.measured + 1));
      }
    }

    method FollowLead(valid: bool, rRising: bool, nRising: bool)
      modifies this`lead
      ensures lead == Follow(old(lead), valid, rRising, nRising)
    {
      if !valid {
        lead := Lead(0, false, 0);
      } else if nRising {
        lead := lead.(count := 0, enable := true);
        if rRising {
          lead := lead.(lead := 0);
        }
      } else if rRising {
        lead := lead.(lead := if lead.enable then Wrap29(lead.count - 1) else 1);
        lead := lead.(enable := false);
      } else if lead.enable {
        lead := lead.(count := Wrap29(lead.count - 1));
      }
    }

    method ControlLoop(c: Classifier, rRising: bool)
      modifies this`loop
      ensures loop == Control(holdoverDac, old(loop), c, rRising, lead.lead, period.frequencyError)
    {
      var lag := Wrap29(lead.lead + c.ExpectedPeriod());
      if !c.Valid() {
        loop := RestingLoop(holdoverDac);
      } else {
        match loop.state {
          case MEASURE =>
            if rRising {
              loop := loop.(state := CAPTURE);
            }
          case CAPTURE =>
            loop := loop.(state := if lag < Wrap29(-lead.lead) then CAPTURE_LAG else CAPTURE_LEAD);
          case CAPTURE_LAG =>
            loop := loop.(phaseError := lag, lockHistory := loop.lockHistory.Shift(lag <= c.LockMargin()));
            loop := loop.(state := CALCULATE_ERROR);
          case CAPTURE_LEAD =>
            loop := loop.(phaseError := lead.lead,
                          lockHistory := loop.lockHistory.Shift(Wrap29(-lead.lead) <= c.LockMargin()));
            loop := loop.(state := CALCULATE_ERROR);
          case CALCULATE_ERROR =>
            loop := loop.(combinedError := Wrap29(loop.phaseError + period.frequencyError));
            loop := loop.(state := if c.is10m then CALCULATE_10M_GAIN else CALCULATE_ADJUSTMENT);
          case CALCULATE_10M_GAIN =>
            loop := loop.(gainShift := GainShift(loop.combinedError), state := CALCULATE_ADJUSTMENT);
          case CALCULATE_ADJUSTMENT =>
            loop := loop.(adjustment :=
              if c.is10m then Wrap29(loop.combinedError * Pow2(loop.gainShift))
              else Wrap29(Wrap29(loop.combinedError * 16) - loop.combinedError));
            loop := loop.(state := CALCULATE_OUTPUT);
          case CALCULATE_OUTPUT =>
            loop := loop.(dacSum := Wrap29(loop.automaticDac + loop.adjustment), state := APPLY_OUTPUT);
          case APPLY_OUTPUT =>
            loop := loop.(automaticDac := Clamp16(loop.dacSum), state := MEASURE);
        }
      }
    }
  }
}
