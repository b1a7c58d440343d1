/**
 The reference PLL: classifier, dividers, period and lead counters, and the
 nine-state control loop that steers the DAC.  Register widths wrap as the
 hardware's do.
 */
module RefPll {
  import opened Bits
  import opened RegisterMap

  const REF_10M_MIN: nat := 19
  const REF_10M_MAX: nat := 21
  const REF_PPS_MIN: nat := 199_960_000
  const REF_PPS_MAX: nat := 200_040_000
  const RDIV_10M: nat := 1_000_000
  const RDIV_PPS: nat := 1
  const NDIV_10M: nat := 2_000_000
  const NDIV_PPS: nat := 20_000_000
  const PFD_PERIOD_10M: nat := 20_000_000
  const PFD_PERIOD_PPS: nat := 200_000_000
  const LOCK_MARGIN_10M: nat := 20
  const LOCK_MARGIN_PPS: nat := 200

  /** A 29-bit two's complement register keeps this much of an integer. */
  function Wrap29(x: int): (w: int)
    ensures -0x1000_0000 <= w < 0x1000_0000
    ensures -0x1000_0000 <= x < 0x1000_0000 ==> w == x
  {
    (x + 0x1000_0000) % 0x2000_0000 - 0x1000_0000
  }

  function Clamp16(x: int): Word16 {
    if x < 0 then 0 else if x > 65535 then 65535 else x
  }

  // ---------------------------------------------------------------------
  // Reference classifier.

  datatype Classifier = Classifier(seen: bool, count: nat, is10m: bool, isPps: bool) {
    predicate Valid() {
      is10m || isPps
    }

    function RDivider(): nat {
      if is10m then RDIV_10M else RDIV_PPS
    }

    function NDivider(): nat {
      if is10m then NDIV_10M else NDIV_PPS
    }

    function ExpectedPeriod(): nat {
      if is10m then PFD_PERIOD_10M else PFD_PERIOD_PPS
    }

    function LockMargin(): nat {
      if is10m then LOCK_MARGIN_10M else LOCK_MARGIN_PPS
    }
  }

  predicate In10mWindow(distance: int) {
    REF_10M_MIN <= distance <= REF_10M_MAX
  }

  predicate InPpsWindow(distance: int) {
    REF_PPS_MIN <= distance <= REF_PPS_MAX
  }

  /** `rising` is the wire external_reference_rising. */
  function Classify(c: Classifier, rising: bool): Classifier {
    if rising then
      Classifier(true, 1,
                 if c.seen then In10mWindow(c.count) else c.is10m,
                 if c.seen then InPpsWindow(c.count) else c.isPps)
    else if c.seen then
      if c.count > REF_PPS_MAX then Classifier(false, 0, false, false)
      else c.(count := (c.count + 1) % 0x1_0000_0000)
    else c
  }

  // ---------------------------------------------------------------------
  // Dividers.

  datatype Divider = Divider(count: nat, rising: bool)

  /** One divider edge; the counter is `width` values wide. */
  function Divide(d: Divider, valid: bool, tick: bool, divider: nat, width: nat): Divider
    requires 0 < width
  {
    if !valid then Divider(0, false)
    else if !tick then d.(rising := false)
    else if d.count == divider - 1 then Divider(0, true)
    else Divider((d.count + 1) % width, false)
  }

  // ---------------------------------------------------------------------
  // Period and lead.

  datatype Period = Period(measured: int, frequencyError: int)

  function Measure(p: Period, valid: bool, rRising: bool, expected: int): Period {
    if !valid then Period(0, 0)
    else if rRising then Period(1, Wrap29(expected - p.measured))
    else p.(measured := Wrap29(p.measured + 1))
  }

  datatype Lead = Lead(count: int, enable: bool, lead: int)

  function Follow(l: Lead, valid: bool, rRising: bool, nRising: bool): Lead {
    if !valid then Lead(0, false, 0)
    else if nRising then Lead(0, true, if rRising then 0 else l.lead)
    else if rRising then Lead(l.count, false, if l.enable then Wrap29(l.count - 1) else 1)
    else if l.enable then l.(count := Wrap29(l.count - 1))
    else l
  }

  // ---------------------------------------------------------------------
  // Control loop.

  datatype LoopState =
    | MEASURE | CAPTURE | CAPTURE_LAG | CAPTURE_LEAD | CALCULATE_ERROR
    | CALCULATE_10M_GAIN | CALCULATE_ADJUSTMENT | CALCULATE_OUTPUT | APPLY_OUTPUT

  datatype LockHistory = LockHistory(latest: bool, second: bool, third: bool) {
    function Shift(within: bool): LockHistory {
      LockHistory(within, latest, second)
    }

    predicate All() {
      latest && second && third
    }
  }

  datatype Loop = Loop(
    state: LoopState,
    automaticDac: Word16,
    phaseError: int,
    combinedError: int,
    gainShift: nat,
    adjustment: int,
    dacSum: int,
    lockHistory: LockHistory
  )

  function RestingLoop(holdoverDac: Word16): Loop {
    Loop(MEASURE, holdoverDac, 0, 0, 0, 0, 0, LockHistory(false, false, false))
  }

  function GainShift(e: int): nat {
    if e < -7 || e > 7 then 7 else if e < 0 then -e else e
  }

  function Control(holdoverDac: Word16, l: Loop, c: Classifier, rRising: bool, lead: int, frequencyError: int): Loop {
    var lag := Wrap29(lead + c.ExpectedPeriod());
    if !c.Valid() then RestingLoop(holdoverDac)
    else
      match l.state
      case MEASURE => if rRising then l.(state := CAPTURE) else l
      case CAPTURE => l.(state := if lag < Wrap29(-lead) then CAPTURE_LAG else CAPTURE_LEAD)
      case CAPTURE_LAG =>
        l.(phaseError := lag, lockHistory := l.lockHistory.Shift(lag <= c.LockMargin()), state := CALCULATE_ERROR)
      case CAPTURE_LEAD =>
        l.(phaseError := lead, lockHistory := l.lockHistory.Shift(Wrap29(-lead) <= c.LockMargin()),
           state := CALCULATE_ERROR)
      case CALCULATE_ERROR =>
        l.(combinedError := Wrap29(l.phaseError + frequencyError),
           state := if c.is10m then CALCULATE_10M_GAIN else CALCULATE_ADJUSTMENT)
      case CALCULATE_10M_GAIN => l.(gainShift := GainShift(l.combinedError), state := CALCULATE_ADJUSTMENT)
      case CALCULATE_ADJUSTMENT =>
        l.(adjustment := if c.is10m then Wrap29(l.combinedError * Pow2(l.gainShift))
                         else Wrap29(Wrap29(l.combinedError * 16) - l.combinedError),
           state := CALCULATE_OUTPUT)
      case CALCULATE_OUTPUT => l.(dacSum := Wrap29(l.automaticDac + l.adjustment), state := APPLY_OUTPUT)
      case APPLY_OUTPUT => l.(automaticDac := Clamp16(l.dacSum), state := MEASURE)
  }

  // ---------------------------------------------------------------------
  // The whole PLL.

  datatype Sync4 = Sync4(s0: bool, s1: bool, s2: bool, s3: bool) {
    function Shift(sample: bool): Sync4 {
      Sync4(sample, s0, s1, s2)
    }

    predicate Rising() {
      !s3 && s2
    }
  }

  /**
   `reference` counts sample clock cycles modulo ten since the divided 40 MHz
   reference clock last rose: the two clocks come from one PLL, 5 to 1.
   */
  datatype State = State(
    external: Sync4,
    reference: nat,
    classifier: Classifier,
    r: Divider,
    n: Divider,
    period: Period,
    lead: Lead,
    loop: Loop,
    locked: bool
  )

  function Reset(holdoverDac: Word16, reference: nat): State {
    State(Sync4(false, false, false, false), reference, Classifier(false, 0, false, false),
          Divider(0, false), Divider(0, false), Period(0, 0), Lead(0, false, 0), RestingLoop(holdoverDac), false)
  }

  /** One sample clock edge out of reset; `sample` is the external reference pin, `tick` the wire reference_clock_rising. */
  function StepWith(holdoverDac: Word16, s: State, sample: bool, tick: bool): State {
    var c := s.classifier;
    State(
      s.external.Shift(sample),
      (s.reference + 1) % 10,
      Classify(c, s.external.Rising()),
      Divide(s.r, c.Valid(), s.external.Rising(), c.RDivider(), 0x100_0000),
      Divide(s.n, c.Valid(), tick, c.NDivider(), 0x400_0000),
      Measure(s.period, c.Valid(), s.r.rising, c.ExpectedPeriod()),
      Follow(s.lead, c.Valid(), s.r.rising, s.n.rising),
      Control(holdoverDac, s.loop, c, s.r.rising, s.lead.lead, s.period.frequencyError),
      c.Valid() && s.loop.lockHistory.All())
  }

  /** One edge with the divided reference clock rising every ten. */
  function Step(holdoverDac: Word16, s: State, sample: bool): State {
    StepWith(holdoverDac, s, sample, s.reference == 0)
  }

  function Run(holdoverDac: Word16, s: State, samples: seq<bool>): State
    decreases samples
  {
    if samples == [] then s else Run(holdoverDac, Step(holdoverDac, s, samples[0]), samples[1..])
  }
}
