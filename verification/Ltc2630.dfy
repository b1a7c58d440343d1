/**
 The bit-serial driver of the LTC2630 DAC, and a listener that reads the three
 wires the way the DAC does.
 */
module Ltc2630 {
  import opened Basics
  import opened RegisterMap
  import opened Bits

  datatype Phase = Idle | Transfer | Finish

  datatype State = State(
    phase: Phase,
    lastValue: Word16,
    transferValue: Word16,
    lastValueValid: bool,
    shiftRegister: seq<bool>,
    bitCount: nat,
    divider: nat,
    sclk: bool,
    syncN: bool
  )

  datatype Pins = Pins(sclk: bool, mosi: bool, syncN: bool)

  function Reset(): State {
    State(Idle, 0, 0, false, ToBits(0, 24), 0, 0, false, true)
  }

  /** Command 0x3, write and update, followed by the value. */
  function Frame(value: Word16): (bs: seq<bool>)
    ensures |bs| == 24
  {
    ToBits(0x30, 8) + ToBits(value, 16)
  }

  /** The 24-bit word a frame reads as. */
  function Command(value: nat): nat {
    0x30_0000 + value
  }

  lemma FrameReadsBack(value: Word16)
    ensures FromBits(Frame(value)) == Command(value)
  {
    Powers();
    FromToBits(0x30, 8);
    FromToBits(value, 16);
    FromBitsConcat(ToBits(0x30, 8), ToBits(value, 16));
  }

  predicate Triggers(s: State, value: Word16) {
    s.phase.Idle? && (!s.lastValueValid || value != s.lastValue)
  }

  /** One clock edge; `n` is CLOCK_DIVIDER.  The divider register has 16 bits, the bit counter 5. */
  function Step(n: int, s: State, value: Word16): State {
    match s.phase
    case Idle =>
      var rest := s.(sclk := false, syncN := true, divider := 0);
      if Triggers(s, value) then
        rest.(shiftRegister := Frame(value), transferValue := value, bitCount := 0, syncN := false, phase := Transfer)
      else rest
    case Transfer =>
      if s.divider != n - 1 then s.(divider := (s.divider + 1) % 0x1_0000)
      else if !s.sclk then s.(divider := 0, sclk := true)
      else if s.bitCount == 23 then s.(divider := 0, sclk := false, phase := Finish)
      else
        s.(divider := 0, sclk := false, bitCount := (s.bitCount + 1) % 32,
           shiftRegister := if s.shiftRegister == [] then [] else s.shiftRegister[1..] + [false])
    case Finish =>
      s.(syncN := true, lastValue := s.transferValue, lastValueValid := true, phase := Idle)
  }

  function PinsOf(s: State): Pins {
    Pins(s.sclk, s.shiftRegister != [] && s.shiftRegister[0], s.syncN)
  }

  function Run(n: int, s: State, values: seq<Word16>): State
    decreases values
  {
    if values == [] then s else Run(n, Step(n, s, values[0]), values[1..])
  }

  /** The wires after each clock edge. */
  function Wave(n: int, s: State, values: seq<Word16>): seq<Pins>
    decreases values
  {
    if values == [] then []
    else
      var next := Step(n, s, values[0]);
      [PinsOf(next)] + Wave(n, next, values[1..])
  }

  /** The input at the start of each frame. */
  function Starts(n: int, s: State, values: seq<Word16>): seq<Word16>
    decreases values
  {
    if values == [] then []
    else (if Triggers(s, values[0]) then [values[0]] else []) + Starts(n, Step(n, s, values[0]), values[1..])
  }

  lemma {:induction false} RunConcat(n: int, s: State, values: seq<Word16>, more: seq<Word16>)
    ensures Run(n, s, values + more) == Run(n, Run(n, s, values), more)
    decreases values
  {
    if values == [] {
      assert values + more == more;
    } else {
      assert (values + more)[1..] == values[1..] + more;
      RunConcat(n, Step(n, s, values[0]), values[1..], more);
    }
  }

  // ---------------------------------------------------------------------
  // The listener: samples MOSI on rising SCLK while SYNC is low, and takes
  // what it has when SYNC rises.

  datatype Listener = Listener(sclk: bool, syncN: bool, bits: seq<bool>, frames: seq<seq<bool>>)

  const QUIET_LINE := Listener(false, true, [], [])

  function Hear(l: Listener, p: Pins): Listener {
    if p.syncN then
      Listener(p.sclk, true, [], if l.syncN then l.frames else l.frames + [l.bits])
    else
      Listener(p.sclk, false, if p.sclk && !l.sclk then l.bits + [p.mosi] else l.bits, l.frames)
  }

  function Listen(l: Listener, wave: seq<Pins>): Listener
    decreases wave
  {
    if wave == [] then l else Listen(Hear(l, wave[0]), wave[1..])
  }

  function Frames(values: seq<Word16>): seq<seq<bool>> {
    seq(|values|, i requires 0 <= i < |values| => Frame(values[i]))
  }

  // ---------------------------------------------------------------------
  // Serialiser and listener undo each other.

  /** The divider settings for which the 16-bit counter reaches its target. */
  predicate Divides(n: int) {
    1 <= n <= 0x1_0000
  }

  predicate Inv(n: int, s: State) {
    Shape(n, s) && (s.phase.Transfer? ==> InFront(s.shiftRegister, Frame(s.transferValue), s.bitCount))
  }

  predicate Shape(n: int, s: State) {
    && Divides(n)
    && |s.shiftRegister| == 24
    && 0 <= s.divider < n
    && match s.phase
       case Idle => !s.sclk && s.syncN
       case Transfer => !s.syncN && s.bitCount <= 23
       case Finish => !s.sclk && !s.syncN
  }

  /** The bits of the frame still to be sent sit at the front of the shift register. */
  predicate InFront(register: seq<bool>, frame: seq<bool>, sent: nat)
    requires sent <= 23 && |register| == 24 && |frame| == 24
  {
    register[..24 - sent] == frame[sent..]
  }

  /** Shifting one bit out leaves the bits after it in front. */
  lemma ShiftsOn(register: seq<bool>, frame: seq<bool>, sent: nat)
    requires |register| == 24 && |frame| == 24 && sent < 23
    requires InFront(register, frame, sent)
    ensures InFront(register[1..] + [false], frame, sent + 1)
  {
    assert (register[1..] + [false])[..23 - sent] == register[..24 - sent][1..];
    assert frame[sent..][1..] == frame[sent + 1..];
  }

  /** The bits shifted out so far, and the one on the wire. */
  lemma NextBit(register: seq<bool>, frame: seq<bool>, sent: nat)
    requires |register| == 24 && |frame| == 24 && sent <= 23
    requires InFront(register, frame, sent)
    ensures frame[..sent] + [register[0]] == frame[..sent + 1]
    ensures sent == 23 ==> frame[..sent + 1] == frame
  {
    assert register[..24 - sent][0] == frame[sent..][0];
  }

  lemma StepShape(n: int, s: State, value: Word16)
    requires Shape(n, s)
    ensures Shape(n, Step(n, s, value))
  {
  }

  lemma StepInFront(n: int, s: State, value: Word16, frame: seq<bool>)
    requires Shape(n, s) && s.phase.Transfer? && |frame| == 24 && InFront(s.shiftRegister, frame, s.bitCount)
    ensures var next := Step(n, s, value);
            next.phase.Transfer? ==> |next.shiftRegister| == 24 && next.bitCount <= 23
                                     && InFront(next.shiftRegister, frame, next.bitCount)
  {
    var next := Step(n, s, value);
    if s.divider == n - 1 && s.sclk && s.bitCount < 23 {
      ShiftsOn(s.shiftRegister, frame, s.bitCount);
      assert next.bitCount == s.bitCount + 1;
    } else if next.phase.Transfer? {
      assert next.bitCount == s.bitCount && next.shiftRegister == s.shiftRegister;
    }
  }

  lemma WholeInFront(frame: seq<bool>)
    requires |frame| == 24
    ensures InFront(frame, frame, 0)
  {
  }

  lemma StepInv(n: int, s: State, value: Word16)
    requires Inv(n, s)
    ensures Inv(n, Step(n, s, value))
  {
    StepShape(n, s, value);
    match s.phase {
      case Idle => WholeInFront(Frame(value));
      case Transfer => StepInFront(n, s, value, Frame(s.transferValue));
      case Finish =>
    }
  }

  lemma {:induction false} RunInv(n: int, s: State, values: seq<Word16>)
    requires Inv(n, s)
    ensures Inv(n, Run(n, s, values))
    decreases values
  {
    if values != [] {
      StepInv(n, s, values[0]);
      RunInv(n, Step(n, s, values[0]), values[1..]);
    }
  }

  /** The listener has heard exactly what the driver has sent of the current frame. */
  predicate Follows(s: State, l: Listener) {
    && l.sclk == s.sclk && l.syncN == s.syncN
    && match s.phase
       case Idle => l.bits == []
       case Transfer => s.bitCount <= 23 && l.bits == Frame(s.transferValue)[..s.bitCount + if s.sclk then 1 else 0]
       case Finish => l.bits == Frame(s.transferValue)
  }

  lemma StepFollows(n: int, s: State, l: Listener, value: Word16)
    requires Inv(n, s) && Follows(s, l)
    ensures var next := Step(n, s, value);
            var l' := Hear(l, PinsOf(next));
            && Follows(next, l')
            && l'.frames == if s.phase.Finish? then l.frames + [Frame(s.transferValue)] else l.frames
  {
    if s.phase.Transfer? {
      NextBit(s.shiftRegister, Frame(s.transferValue), s.bitCount);
    }
  }

  /** The value being sent, as a list. */
  function Underway(s: State): seq<Word16> {
    if s.phase.Idle? then [] else [s.transferValue]
  }

  /** The value whose frame the next edge completes, as a list. */
  function Completing(s: State): seq<Word16> {
    if s.phase.Finish? then [s.transferValue] else []
  }

  lemma StepUnderway(n: int, s: State, value: Word16)
    ensures Underway(s) + (if Triggers(s, value) then [value] else []) == Completing(s) + Underway(Step(n, s, value))
  {
  }

  lemma {:induction false} StartsAreCompleted(n: int, s: State, values: seq<Word16>)
    ensures Underway(s) + Starts(n, s, values) == Completed(n, s, values) + Underway(Run(n, s, values))
    decreases values
  {
    if values != [] {
      var next := Step(n, s, values[0]);
      var start := if Triggers(s, values[0]) then [values[0]] else [];
      StepUnderway(n, s, values[0]);
      StartsAreCompleted(n, next, values[1..]);
      Balance(Underway(s), start, Starts(n, next, values[1..]), Completing(s), Underway(next),
              Completed(n, next, values[1..]), Underway(Run(n, next, values[1..])));
    }
  }

  /** The values whose frames complete. */
  function Completed(n: int, s: State, values: seq<Word16>): seq<Word16>
    decreases values
  {
    if values == [] then [] else Completing(s) + Completed(n, Step(n, s, values[0]), values[1..])
  }

  /** Whatever the input does, the frames heard are the frames completed. */
  lemma {:induction false} HeardIsCompleted(n: int, s: State, l: Listener, values: seq<Word16>)
    requires Inv(n, s) && Follows(s, l)
    ensures var heard := Listen(l, Wave(n, s, values));
            Follows(Run(n, s, values), heard) && heard.frames == l.frames + Frames(Completed(n, s, values))
    decreases values
  {
    if values != [] {
      var next := Step(n, s, values[0]);
      var l' := Hear(l, PinsOf(next));
      StepInv(n, s, values[0]);
      StepFollows(n, s, l, values[0]);
      HeardIsCompleted(n, next, l', values[1..]);
      assert Wave(n, s, values)[1..] == Wave(n, next, values[1..]);
      FramesConcat(Completing(s), Completed(n, next, values[1..]));
      assert l'.frames == l.frames + Frames(Completing(s));
    }
  }

  lemma FramesConcat(a: seq<Word16>, b: seq<Word16>)
    ensures Frames(a + b) == Frames(a) + Frames(b)
  {
  }

  lemma HeardFromReset(n: int, values: seq<Word16>)
    requires Divides(n)
    ensures Listen(QUIET_LINE, Wave(n, Reset(), values)).frames == Frames(Completed(n, Reset(), values))
  {
    HeardIsCompleted(n, Reset(), QUIET_LINE, values);
    var frames := Frames(Completed(n, Reset(), values));
    assert [] + frames == frames;
  }

  /**
   From reset, every completed frame has exactly 24 SCLK rising edges and reads
   0x30 followed by the input at its start; each start is heard once, in order.
   */
  lemma EveryFrameIsHeard(n: int, values: seq<Word16>)
    requires Divides(n)
    ensures var s := Run(n, Reset(), values);
            var starts := Starts(n, Reset(), values);
            var frames := Listen(QUIET_LINE, Wave(n, Reset(), values)).frames;
            && |frames| == |starts| - (if s.phase.Idle? then 0 else 1)
            && forall i :: 0 <= i < |frames| ==> |frames[i]| == 24 && FromBits(frames[i]) == Command(starts[i])
  {
    HeardFromReset(n, values);
    StartsAreCompleted(n, Reset(), values);
    var starts := Starts(n, Reset(), values);
    var frames := Listen(QUIET_LINE, Wave(n, Reset(), values)).frames;
    var completed := Completed(n, Reset(), values);
    assert starts == [] + starts == completed + Underway(Run(n, Reset(), values));
    assert frames == Frames(completed);
    forall i | 0 <= i < |frames|
      ensures |frames[i]| == 24 && FromBits(frames[i]) == Command(starts[i])
    {
      assert frames[i] == Frame(completed[i]) && completed[i] == starts[i];
      FrameReadsBack(starts[i]);
    }
  }

  /** `lastValue` is the value of the last completed frame. */
  lemma {:induction false} LastValueIsLastFrame(n: int, s: State, values: seq<Word16>)
    ensures var end := Run(n, s, values);
            var done := Completed(n, s, values);
            if done == [] then end.lastValueValid == s.lastValueValid && end.lastValue == s.lastValue
            else end.lastValueValid && end.lastValue == done[|done| - 1]
    decreases values
  {
    if values != [] {
      LastValueIsLastFrame(n, Step(n, s, values[0]), values[1..]);
    }
  }

  predicate NoRepeats(xs: seq<Word16>) {
    forall i :: 0 < i < |xs| ==> xs[i] != xs[i - 1]
  }

  /** No frame repeats the one before it. */
  lemma {:induction false} NeighboursDiffer(n: int, s: State, values: seq<Word16>)
    requires !s.phase.Idle? && s.lastValueValid ==> s.transferValue != s.lastValue
    ensures var done := Completed(n, s, values);
            NoRepeats(done) && (done != [] && s.lastValueValid ==> done[0] != s.lastValue)
    decreases values
  {
    if values != [] {
      var next := Step(n, s, values[0]);
      NeighboursDiffer(n, next, values[1..]);
      var rest := Completed(n, next, values[1..]);
      if s.phase.Finish? {
        assert rest != [] ==> rest[0] != s.transferValue;
        assert NoRepeats([s.transferValue] + rest);
      } else {
        assert Completing(s) + rest == rest;
      }
    }
  }

  // ---------------------------------------------------------------------
  // Timing.

  function FrameTime(n: int): int {
    2 + 48 * n
  }

  /** How many edges ago the current frame started. */
  function Age(n: int, s: State): int {
    match s.phase
    case Idle => 0
    case Transfer => 1 + (2 * s.bitCount + if s.sclk then 1 else 0) * n + s.divider
    case Finish => 1 + 48 * n
  }

  lemma StepAge(n: int, s: State, value: Word16)
    requires Inv(n, s)
    ensures var next := Step(n, s, value);
            && 0 <= Age(n, s) < FrameTime(n)
            && (!s.phase.Idle? ==> Age(n, s) >= 1)
            && (Triggers(s, value) ==> Age(n, next) == 1 && next.transferValue == value)
            && (s.phase.Idle? && !Triggers(s, value) ==> next.phase.Idle?)
            && (!s.phase.Idle? && Age(n, s) < FrameTime(n) - 1 ==>
                  Age(n, next) == Age(n, s) + 1 && !next.phase.Idle? && next.transferValue == s.transferValue)
            && (!s.phase.Idle? && Age(n, s) == FrameTime(n) - 1 ==>
                  next.phase.Idle? && next.lastValueValid && next.lastValue == s.transferValue)
  {
    if s.phase.Transfer? {
      var halves := 2 * s.bitCount + if s.sclk then 1 else 0;
      assert halves <= 47;
      HalfBit(halves, n);
    }
  }

  lemma HalfBit(halves: nat, n: int)
    requires halves <= 47 && 1 <= n
    ensures (halves + 1) * n == halves * n + n
    ensures 0 <= halves * n <= 47 * n
  {
  }

  /** A frame takes exactly 2 + 48 * CLOCK_DIVIDER edges, whatever the input does meanwhile. */
  lemma {:induction false} FrameLasts(n: int, s: State, values: seq<Word16>)
    requires Inv(n, s) && !s.phase.Idle?
    requires Age(n, s) + |values| <= FrameTime(n)
    ensures var end := Run(n, s, values);
            if Age(n, s) + |values| == FrameTime(n) then
              end.phase.Idle? && end.lastValueValid && end.lastValue == s.transferValue
            else
              !end.phase.Idle? && Age(n, end) == Age(n, s) + |values| && end.transferValue == s.transferValue
    decreases values
  {
    StepAge(n, s, 0);
    if values != [] {
      StepAge(n, s, values[0]);
      StepInv(n, s, values[0]);
      if Age(n, s) < FrameTime(n) - 1 {
        FrameLasts(n, Step(n, s, values[0]), values[1..]);
      } else {
        assert values[1..] == [];
      }
    }
  }

  lemma FrameTakes(n: int, s: State, values: seq<Word16>)
    requires Inv(n, s) && 0 < |values| <= FrameTime(n) && Triggers(s, values[0])
    ensures var end := Run(n, s, values);
            if |values| == FrameTime(n) then end.phase.Idle? && end.lastValueValid && end.lastValue == values[0]
            else !end.phase.Idle? && Age(n, end) == |values|
  {
    StepAge(n, s, values[0]);
    StepInv(n, s, values[0]);
    FrameLasts(n, Step(n, s, values[0]), values[1..]);
  }

  /** Edges until the DAC holds `value`, if the input stays at `value`. */
  function TimeTo(n: int, s: State, value: Word16): int {
    if s.phase.Idle? then
      if Triggers(s, value) then FrameTime(n) else 0
    else
      FrameTime(n) - Age(n, s) + if s.transferValue == value then 0 else FrameTime(n)
  }

  lemma StepTimeTo(n: int, s: State, value: Word16)
    requires Inv(n, s)
    ensures 0 <= TimeTo(n, s, value) < 2 * FrameTime(n)
    ensures TimeTo(n, Step(n, s, value), value) == if TimeTo(n, s, value) == 0 then 0 else TimeTo(n, s, value) - 1
    ensures TimeTo(n, s, value) == 0 ==> s.phase.Idle? && s.lastValueValid && s.lastValue == value
  {
    StepAge(n, s, value);
    StepAge(n, Step(n, s, value), value) by {
      StepInv(n, s, value);
    }
  }

  /** From any reachable state, two frame times of a steady input leave it in the DAC and the bus idle. */
  lemma {:induction false} HeldInputArrives(n: int, s: State, value: Word16, values: seq<Word16>)
    requires Inv(n, s)
    requires forall i :: 0 <= i < |values| ==> values[i] == value
    ensures var end := Run(n, s, values);
            && TimeTo(n, end, value) == (if |values| <= TimeTo(n, s, value) then TimeTo(n, s, value) - |values| else 0)
            && (2 * FrameTime(n) <= |values| ==>
                  end.phase.Idle? && end.lastValueValid && end.lastValue == value && !end.sclk && end.syncN)
    decreases values
  {
    StepTimeTo(n, s, value);
    RunInv(n, s, values);
    StepTimeTo(n, Run(n, s, values), value);
    if values != [] {
      StepInv(n, s, value);
      StepTimeTo(n, Step(n, s, value), value);
      HeldInputArrives(n, Step(n, s, value), value, values[1..]);
    }
  }

  /** Outside that range of settings the counter never reaches its target: SCLK never rises and no frame ends. */
  lemma {:induction false} OtherDividersNeverClock(n: int, s: State, l: Listener, values: seq<Word16>)
    requires !Divides(n)
    requires !s.phase.Finish? && !s.sclk && s.divider < 0x1_0000 && (s.phase.Idle? <==> s.syncN)
    requires l.frames == [] && l.syncN == s.syncN
    ensures |Wave(n, s, values)| == |values| && forall i :: 0 <= i < |values| ==> !Wave(n, s, values)[i].sclk
    ensures Listen(l, Wave(n, s, values)).frames == []
    decreases values
  {
    if values != [] {
      var next := Step(n, s, values[0]);
      OtherDividersNeverClock(n, next, Hear(l, PinsOf(next)), values[1..]);
      assert Wave(n, s, values)[1..] == Wave(n, next, values[1..]);
    }
  }

  // ---------------------------------------------------------------------
  // Set-up and hold.

  ghost predicate RisesAt(wave: seq<Pins>, t: int) {
    0 < t < |wave| && !wave[t - 1].sclk && wave[t].sclk
  }

  /** Wire values from `from` up to `to` (as far as the wave goes) show this clock level and data bit, SYNC low. */
  ghost predicate Steady(wave: seq<Pins>, from: int, to: int, level: bool, mosi: bool) {
    forall j :: 0 <= j < |wave| && from <= j < to ==> wave[j] == Pins(level, mosi, false)
  }

  /** MOSI holds `n` edges before each rising SCLK and `n` edges from it on. */
  ghost predicate SetupAndHold(n: int, wave: seq<Pins>) {
    forall t :: RisesAt(wave, t) ==>
      && n <= t
      && Steady(wave, t - n, t, false, wave[t].mosi)
      && Steady(wave, t, t + n, true, wave[t].mosi)
  }

  /** While the clock is low, so has the wave been since the divider restarted. */
  ghost predicate RecentLow(s: State, wave: seq<Pins>) {
    s.phase.Transfer? && !s.sclk ==>
      s.divider + 1 <= |wave| && Steady(wave, |wave| - s.divider - 1, |wave|, false, PinsOf(s).mosi)
  }

  ghost predicate RecentHigh(s: State, wave: seq<Pins>) {
    s.phase.Transfer? && s.sclk ==>
      && RisesAt(wave, |wave| - s.divider - 1)
      && Steady(wave, |wave| - s.divider - 1, |wave|, true, PinsOf(s).mosi)
  }

  /** Every rise is `n` edges old, but for one still in its high half. */
  ghost predicate RisesHeld(n: int, s: State, wave: seq<Pins>) {
    forall t :: RisesAt(wave, t) ==>
      t + n <= |wave| || (s.phase.Transfer? && s.sclk && t == |wave| - s.divider - 1)
  }

  /** What the latest stretch of the wave looks like, given the driver's state. */
  ghost predicate Recent(n: int, s: State, wave: seq<Pins>) {
    && (if wave == [] then s.phase.Idle? else wave[|wave| - 1] == PinsOf(s))
    && RecentLow(s, wave) && RecentHigh(s, wave) && RisesHeld(n, s, wave)
  }

  /** An edge later, the risen clock is still high and MOSI unmoved for `n` edges in all. */
  lemma StepHold(n: int, s: State, wave: seq<Pins>, value: Word16, t: int)
    requires Inv(n, s) && Recent(n, s, wave) && SetupAndHold(n, wave) && RisesAt(wave, t)
    ensures var longer := wave + [PinsOf(Step(n, s, value))];
            && n <= t
            && Steady(longer, t - n, t, false, longer[t].mosi)
            && Steady(longer, t, t + n, true, longer[t].mosi)
  {
  }

  lemma StepRecentLow(n: int, s: State, wave: seq<Pins>, value: Word16)
    requires Inv(n, s) && Recent(n, s, wave)
    ensures var next := Step(n, s, value);
            RecentLow(next, wave + [PinsOf(next)])
  {
  }

  lemma StepRecentHigh(n: int, s: State, wave: seq<Pins>, value: Word16)
    requires Inv(n, s) && Recent(n, s, wave)
    ensures var next := Step(n, s, value);
            RecentHigh(next, wave + [PinsOf(next)])
  {
    var next := Step(n, s, value);
    var longer := wave + [PinsOf(next)];
    if next.phase.Transfer? && next.sclk {
      var t := |longer| - next.divider - 1;
      if s.sclk {
        assert RisesAt(wave, t);
      }
      assert RisesAt(longer, t);
    }
  }

  lemma StepRisesHeld(n: int, s: State, wave: seq<Pins>, value: Word16)
    requires Inv(n, s) && Recent(n, s, wave)
    ensures var next := Step(n, s, value);
            RisesHeld(n, next, wave + [PinsOf(next)])
  {
    var next := Step(n, s, value);
    var longer := wave + [PinsOf(next)];
    forall t | RisesAt(longer, t)
      ensures t + n <= |longer| || (next.phase.Transfer? && next.sclk && t == |longer| - next.divider - 1)
    {
      if t < |wave| {
        assert RisesAt(wave, t);
      }
    }
  }

  lemma StepRecent(n: int, s: State, wave: seq<Pins>, value: Word16)
    requires Inv(n, s) && Recent(n, s, wave)
    ensures var next := Step(n, s, value);
            Recent(n, next, wave + [PinsOf(next)])
  {
    StepRecentLow(n, s, wave, value);
    StepRecentHigh(n, s, wave, value);
    StepRisesHeld(n, s, wave, value);
  }

  lemma StepSetupAndHold(n: int, s: State, wave: seq<Pins>, value: Word16)
    requires Inv(n, s) && Recent(n, s, wave) && SetupAndHold(n, wave)
    ensures SetupAndHold(n, wave + [PinsOf(Step(n, s, value))])
  {
    var longer := wave + [PinsOf(Step(n, s, value))];
    forall t | RisesAt(longer, t)
      ensures n <= t && Steady(longer, t - n, t, false, longer[t].mosi) && Steady(longer, t, t + n, true, longer[t].mosi)
    {
      if t < |wave| {
        assert RisesAt(wave, t);
        StepHold(n, s, wave, value, t);
      } else {
        assert Steady(wave, t - n, t, false, longer[t].mosi);
      }
    }
  }

  lemma AppendOne<T>(a: seq<T>, x: T, b: seq<T>)
    ensures a + ([x] + b) == (a + [x]) + b
  {
  }

  lemma {:induction false} WaveSetupAndHold(n: int, s: State, past: seq<Pins>, values: seq<Word16>)
    requires Inv(n, s) && Recent(n, s, past) && SetupAndHold(n, past)
    ensures SetupAndHold(n, past + Wave(n, s, values))
    decreases values
  {
    if values == [] {
      assert past + [] == past;
    } else {
      var next := Step(n, s, values[0]);
      StepInv(n, s, values[0]);
      StepRecent(n, s, past, values[0]);
      StepSetupAndHold(n, s, past, values[0]);
      WaveSetupAndHold(n, next, past + [PinsOf(next)], values[1..]);
      AppendOne(past, PinsOf(next), Wave(n, next, values[1..]));
    }
  }

  /** From reset, MOSI is stable CLOCK_DIVIDER edges either side of every rising SCLK, with SYNC low. */
  lemma MosiIsStable(n: int, values: seq<Word16>)
    requires Divides(n)
    ensures SetupAndHold(n, Wave(n, Reset(), values))
  {
    WaveSetupAndHold(n, Reset(), [], values);
    assert [] + Wave(n, Reset(), values) == Wave(n, Reset(), values);
  }

  // ---------------------------------------------------------------------

  /** The driver's registers. */
  class Serializer {
    const clockDivider: int
    var phase: Phase
    var lastValue: Word16
    var transferValue: Word16
    var lastValueValid: bool
    var shiftRegister: seq<bool>
    var bitCount: nat
    var divider: nat
    var sclk: bool
    var syncN: bool

    function Contents(): State
      reads this
    {
      State(phase, lastValue, transferValue, lastValueValid, shiftRegister, bitCount, divider, sclk, syncN)
    }

    constructor (clockDivider: int)
      ensures this.clockDivider == clockDivider && Contents() == Reset()
    {
      this.clockDivider := clockDivider;
      phase := Idle;
      lastValue, transferValue, lastValueValid := 0, 0, false;
      shiftRegister, bitCount, divider := ToBits(0, 24), 0, 0;
      sclk, syncN := false, true;
    }

    method Tick(value: Word16)
      requires |shiftRegister| == 24
      modifies this
      ensures Contents() == Step(clockDivider, old(Contents()), value) && |shiftRegister| == 24
    {
      match phase {
        case Idle =>
          sclk := false;
          syncN := true;
          divider := 0;
          if !lastValueValid || value != lastValue {
            shiftRegister := Frame(value);
            transferValue := value;
            bitCount := 0;
            syncN := false;
            phase := Transfer;
          }
        case Transfer =>
          if divider == clockDivider - 1 {
            divider := 0;
            if !sclk {
              sclk := true;
            } else {
              sclk := false;
              if bitCount == 23 {
                phase := Finish;
              } else {
                bitCount := (bitCount + 1) % 32;
                shiftRegister := shiftRegister[1..] + [false];
              }
            }
          } else {
            divider := (divider + 1) % 0x1_0000;
          }
        case Finish =>
          syncN := true;
          lastValue := transferValue;
          lastValueValid := true;
          phase := Idle;
      }
    }
  }
}
