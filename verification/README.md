# AntSDR E310: verification of the clock discipline core and of three parsers

This project models parts of the AntSDR E310 repository in Dafny and proves what they are for.
`dafny verify dfyconfig.toml` checks all of it.

**The VCXO controller** (`Mailbox`, `StatusReturn`, `RegisterMap`, `VcxoControl`, `Controller`).
A register map in the 100 MHz bus domain and a PLL in the 200 MHz oscillator domain exchange 19-bit words through
two request/acknowledge mailboxes. The edges of the two clocks interleave freely. When a line that crosses has moved
since the sampling register's previous edge, the sample is any value whatever, which covers every mixture of old and
new bits. The registers are classes with a method for each clock edge; each method is proved equal to a step function,
and the theorems are about all runs of the step functions.

**The reference PLL** (`RefPll`, `RefPllDevice`, `RefClassifier`, `RefSwitch`, `RefPllInvariant`, `RefPllTheorems`,
`RefPllFold`, `RefPllPins`, `RefPllOverflow`). Reference clock, classifier, dividers, period and lead counters and the nine-state loop, in registers
of the source's widths that wrap.

**The DAC serialiser** (`Bits`, `Ltc2630`) with a listener that reads its three wires, and **the whole path**: in manual
mode from a bus write to the frame on the wires and from there back to the word software reads (`EndToEnd`), and in
automatic mode from the reference pin to the frame (`RefPllFrames`) and to software (`AutomaticMode`).

**SPDX licence expressions** (`SpdxGrammar`, `SpdxErrors`, `SpdxTokens`, `SpdxLayout`, `SpdxParser`): the grammar of
Annex D of the SPDX Specification 2.3 as trees, the recursive-descent parser and tokeniser as the object they are in the
source, printing, layouts and errors.

**The locked uEnv importer** (`BootEnvironment`, `Uenv`, `UenvLines`): a C scan with cursors over a memory buffer, and the lines it
stands for.

**The persistent settings** (`Text`, `ConfigFile`, `ConfigLines`, `ConfigValues`, `ConfigNames`, `BootScript`, `Config`,
`ConfigImport`, `ConfigReference`, `ConfigAccepted`, `ConfigTool`): reading, checking, storing and exporting the
configuration file, the script for `fw_setenv` included.

Where a theorem's meaning rests on a constant, a name or a class of characters, it gives them by value, and not through
the definitions of the model: the windows and margins of the PLL, register numbers, names and keys, characters.

## Assumptions

- Runs start from a joint reset of both domains. A loss of lock of the clock PLL resets the 200 MHz side alone
  (`axi_e310_vcxo_ctrl.v:157`), which breaks the pairing of the toggles; it is not part of a run.
- A line that has not moved since the sampler's previous edge is sampled exactly. Time is counted in rounds, stretches
  in which each clock has at least one edge, because nothing relates the two frequencies.
- The 40 MHz reference clock is exactly a fifth of the 200 MHz clock, from one PLL (`axi_e310_vcxo_ctrl.v:123-125`),
  at any of five phases. That the registers between the two then give one tick every ten cycles is proved
  (`DeviceIsPll`), so the theorems about runs of the PLL hold of runs with those registers.
- The PLL's whole-run theorems are about runs in which the classification never changes directly between 10 MHz and
  PPS. It may be lost and return any number of times. What a direct change does is proved separately, both ways, in
  `RefClassifier` and `RefSwitch`.
- A word that crosses is kept as the fields the source concatenates, so every pattern of its bits is one value.
- `fw_setenv`, `fw_printenv` and the boot loader's `setenv` are not part of the repository. A stored environment is a
  map from names to text; a script line is a name and, after its first blank, a value; and both behaviours for an empty
  value, keeping and deleting the name, are covered.

## What turned out false, and exactly when it holds

- The R and N counts stay below their dividers across a change of classification only under the stated conditions
  (`RBoundSurvives`, `NBoundSurvives`; over whole runs `CountsStayInRange`), with families of runs from reset, given on
  the pin, that break each (`DirectSwitchOverrunsR`, `DirectSwitchOverrunsN`).
- The DAC update is integer arithmetic exactly when the 29-bit sum survives (`DacUpdateExactly`); beyond the bounds of
  `SmallErrorIsExact` large errors drive the DAC the wrong way (`LargeErrorReverses`). Such errors
  are reachable: `OverflowIsReached` is a run from reset for either kind of reference, at the fast edge of what the
  classifier accepts, that ends in one.
- Printing and parsing a licence expression is the identity exactly for identifiers that do not begin with a keyword
  at whose end a word ends (`PrintParse`).
- Settings that were stored are what is loaded exactly when no value has a line end (`StoredIsLoaded`); otherwise the
  further lines of a value take the values of other names away (`StoredOthers`).
- Exporting and importing settings is the identity exactly for values without a line end (`RoundTripExactly`); an
  address check that looks at each line lets such values through (`TwoLineAddressPasses`).
- The profile written for the boot loader comes back exactly for short plain values (`ProfileIsRecovered`).
- The serialiser works exactly for divider settings from 1 to 65536 (`EveryFrameIsHeard`, `OtherDividersNeverClock`).

## Model

| member | source | states |
|---|---|---|
| Mailbox.StepInv | boards/e310/hw/fpga/library/axi_e310_vcxo_ctrl/axi_e310_vcxo_ctrl.v:169-220 | One clock edge of either side keeps the inductive invariant: around the loop of request, three request synchronisers, acknowledge and three acknowledge synchronisers at most one place differs from its neighbour, and the bus registers hold the mailbox word as far as the request has travelled; while a transfer is pending neither mailbox nor request moves, a launch only happens with nothing in flight, and a capture loads exactly the word in flight |
| Mailbox.Conservation | boards/e310/hw/fpga/library/axi_e310_vcxo_ctrl/axi_e310_vcxo_ctrl.v:169-220 | In any run from a state with the invariant, the word in flight followed by the words launched equals the words captured followed by the word in flight at the end: nothing is lost, doubled or reordered |
| Mailbox.OutputIsLastCapture | boards/e310/hw/fpga/library/axi_e310_vcxo_ctrl/axi_e310_vcxo_ctrl.v:211-218 | The receiver's register is at all times the last word it captured |
| Mailbox.ForwardSample | boards/e310/hw/fpga/library/axi_e310_vcxo_ctrl/axi_e310_vcxo_ctrl.v:205-210 | Between two edges of the receiver the sender may have any number of edges: the second receiver edge reads mailbox and request as they stand if no word was launched in between, and may read anything at all if one was |
| Mailbox.BackSample | boards/e310/hw/fpga/library/axi_e310_vcxo_ctrl/axi_e310_vcxo_ctrl.v:177 | The sender's edge reads the acknowledge as it stands, or anything if a word was captured since its edge before |
| Mailbox.ExactlyOnceDelivery | boards/e310/hw/fpga/library/axi_e310_vcxo_ctrl/axi_e310_vcxo_ctrl.v:169-220 | From a joint reset, under every interleaving of the clocks and every value of every torn sample, the captured words are a prefix of the launched words with at most one outstanding, one capture for each acknowledge toggle, and the output is the last of them |
| Mailbox.TornWordReachesBusSync | boards/e310/hw/fpga/library/axi_e310_vcxo_ctrl/axi_e310_vcxo_ctrl.v:205-218 | A word nobody launched can stand in the second bus register while the word then captured is still the true one: the handshake, not the synchroniser, is what keeps words whole |
| Mailbox.StepDistance | boards/e310/hw/fpga/library/axi_e310_vcxo_ctrl/axi_e310_vcxo_ctrl.v:96-99 | The number of edges, each of the side whose turn it is, until an acknowledge is back at the sender: a launch only starts at distance 0 and sets it to 9, no edge increases it, and an edge of the right clock decreases it |
| Mailbox.QuietRun | boards/e310/hw/fpga/library/axi_e310_vcxo_ctrl/axi_e310_vcxo_ctrl.v:187-191 | When nothing more is offered the intended word never changes, and only a queued word is launched, once |
| Mailbox.QuietDelivery | boards/e310/hw/fpga/library/axi_e310_vcxo_ctrl/axi_e310_vcxo_ctrl.v:169-220 | Fifteen stretches of time with an edge of each clock and no offer deliver the intended word, launch nothing but the queued word, and leave the far side equal to it for as long as nothing is offered |
| StatusReturn.LaunchesAreSamples | boards/e310/hw/fpga/library/axi_e310_vcxo_ctrl/axi_e310_vcxo_ctrl.v:224-248 | Every word the watching sender launches is the value its input had at a sender edge, and these edges are strictly increasing in time |
| StatusReturn.CollectedWordsAreHistory | boards/e310/hw/fpga/library/axi_e310_vcxo_ctrl/axi_e310_vcxo_ctrl.v:224-271 | From a joint reset the words that arrive are values the watched signal took, at strictly increasing times, and no two neighbours are equal |
| StatusReturn.ConstantStep | boards/e310/hw/fpga/library/axi_e310_vcxo_ctrl/axi_e310_vcxo_ctrl.v:233-246 | Once the input rests, the words still to be launched are a fixed list, shortened only by launching its first: the final word if the mailbox differs from it, the queued word and then the final one if the mailbox equals it while another is queued, nothing otherwise |
| StatusReturn.ConstantDelivery | boards/e310/hw/fpga/library/axi_e310_vcxo_ctrl/axi_e310_vcxo_ctrl.v:224-271 | Twenty-five rounds after the input comes to rest the far copy equals it and stays equal, and exactly that list, of at most two words, has been launched |
| StatusReturn.StaleWordIsSentFirst | boards/e310/hw/fpga/library/axi_e310_vcxo_ctrl/axi_e310_vcxo_ctrl.v:233-246 | The bound of two is met: for all words A and B, A, then B while A is in flight, then A again launches exactly the stale B and after it A, and A is what arrives last |
| RegisterMap.RegisterFile.Tick | boards/e310/hw/fpga/library/axi_e310_vcxo_ctrl/axi_e310_vcxo_ctrl_regmap.v:34-61 | A clock edge changes exactly the register that the low four address bits select, to the low bits of the data, and any other address changes nothing |
| RegisterMap.WriteByField | boards/e310/hw/fpga/library/axi_e310_vcxo_ctrl/axi_e310_vcxo_ctrl_regmap.v:41-59 | In numbers: register 0 holds the mode bit, 1 the low 16 bits of the manual DAC value and 3 the two bits of the reference select, and a write to any of the sixteen registers leaves every other field as it was |
| VcxoControl.ControlProjection | boards/e310/hw/fpga/library/axi_e310_vcxo_ctrl/axi_e310_vcxo_ctrl.v:169-220 | The control half of any run of the whole controller is a run of the mailbox protocol |
| VcxoControl.StatusProjection | boards/e310/hw/fpga/library/axi_e310_vcxo_ctrl/axi_e310_vcxo_ctrl.v:224-271 | The status half of any run of the whole controller is a run of the watching sender |
| VcxoControl.OfferIsNewRegisterMap | boards/e310/hw/fpga/library/axi_e310_vcxo_ctrl/axi_e310_vcxo_ctrl.v:106-114 | The word wired to the mailbox on a bus write equals the register map after that write, though it is built from the map before it; an edge without a control write offers nothing and leaves the map alone |
| VcxoControl.StepKeepsInv | boards/e310/hw/fpga/library/axi_e310_vcxo_ctrl/axi_e310_vcxo_ctrl.v:169-271 | Every edge of either clock keeps the invariant of the whole controller: both links, the reset release, and the queued word if dirty, otherwise the mailbox, being the register map |
| VcxoControl.LastWriteWins | boards/e310/hw/fpga/library/axi_e310_vcxo_ctrl/axi_e310_vcxo_ctrl.v:178-191 | In every reachable state the queued word if dirty, otherwise the mailbox, is the register map: coalescing loses nothing but overwritten values |
| VcxoControl.LaunchesAreRegisterMaps | boards/e310/hw/fpga/library/axi_e310_vcxo_ctrl/axi_e310_vcxo_ctrl.v:178-191 | Every control word launched is the register map right after the bus edge that launched it, at strictly increasing times |
| VcxoControl.ControlIsTearFree | boards/e310/hw/fpga/library/axi_e310_vcxo_ctrl/axi_e310_vcxo_ctrl.v:169-220 | Whatever the interleaving and the torn samples, the words loaded in the 200 MHz domain are register maps that existed, in strictly increasing order of time, each once, at most the last launch is outstanding, and the registers hold the last of them |
| VcxoControl.StatusIsTearFree | boards/e310/hw/fpga/library/axi_e310_vcxo_ctrl/axi_e310_vcxo_ctrl.v:224-271 | From power-on the status words software can read are words the 200 MHz domain had, never composites, in strictly increasing order of time |
| VcxoControl.Release | boards/e310/hw/fpga/library/axi_e310_vcxo_ctrl/axi_e310_vcxo_ctrl.v:157-164 | Three 200 MHz edges after the reset is lifted the 200 MHz domain runs |
| VcxoControl.HeldForThree | boards/e310/hw/fpga/library/axi_e310_vcxo_ctrl/axi_e310_vcxo_ctrl.v:157-164 | From power-on, with every register clear, the 200 MHz domain is in reset after a run if and only if the run has fewer than three edges of it |
| VcxoControl.WritesSettle | boards/e310/hw/fpga/library/axi_e310_vcxo_ctrl/axi_e310_vcxo_ctrl.v:157-220 | Eighteen rounds after the last write, from any reachable state and even while the 200 MHz domain is still in reset, its registers equal the register map and stay equal while nothing is written |
| VcxoControl.OneMoreLaunch | boards/e310/hw/fpga/library/axi_e310_vcxo_ctrl/axi_e310_vcxo_ctrl.v:187-191 | Over that whole time exactly the queued word is launched if there was one, and nothing otherwise |
| Controller.MailboxSender.Tick | boards/e310/hw/fpga/library/axi_e310_vcxo_ctrl/axi_e310_vcxo_ctrl.v:169-193 | The sender's registers, updated in place with the pending wire sampled before the edge, take the values of the sender step that the protocol lemmas are about |
| Controller.MailboxReceiver.Tick | boards/e310/hw/fpga/library/axi_e310_vcxo_ctrl/axi_e310_vcxo_ctrl.v:205-218 | The receiver's registers likewise |
| Controller.MailboxLink.SenderClock | boards/e310/hw/fpga/library/axi_e310_vcxo_ctrl/axi_e310_vcxo_ctrl.v:169-193 | An edge of the sending side moves only that side and notes whether a crossing line moved |
| Controller.MailboxLink.ReceiverClock | boards/e310/hw/fpga/library/axi_e310_vcxo_ctrl/axi_e310_vcxo_ctrl.v:195-220 | An edge of the receiving side samples lines that moved as arbitrary values and unmoved ones exactly |
| Controller.Controller.ControlWires | boards/e310/hw/fpga/library/axi_e310_vcxo_ctrl/axi_e310_vcxo_ctrl.v:106-114 | The wires of a bus write give the offer of the specification |
| Controller.Controller.AxiClock | boards/e310/hw/fpga/library/axi_e310_vcxo_ctrl/axi_e310_vcxo_ctrl.v:169-193 | A bus clock edge of the whole object, register file and both links, is a step of the system that the whole-run lemmas are about |
| Controller.Controller.StatusWires | boards/e310/hw/fpga/library/axi_e310_vcxo_ctrl/axi_e310_vcxo_ctrl.v:100-105 | The status word is assembled from the active DAC value and the three flags |
| Controller.Controller.VcxoClock | boards/e310/hw/fpga/library/axi_e310_vcxo_ctrl/axi_e310_vcxo_ctrl.v:195-248 | A 200 MHz edge of the whole object is a step of that system; in reset nothing but the release register moves |
| Controller.Controller.constructor | boards/e310/hw/fpga/library/axi_e310_vcxo_ctrl/axi_e310_vcxo_ctrl.v:157-164 | Power-on is the joint reset state of both domains, in parts that are the object's own |
| Controller.Drive | boards/e310/hw/fpga/library/axi_e310_vcxo_ctrl/axi_e310_vcxo_ctrl.v:157-271 | Clocked through any sequence of edges of either clock, the objects end where the run of the step functions ends, so that the theorems about runs are about them |
| Controller.RunFromPowerOn | boards/e310/hw/fpga/library/axi_e310_vcxo_ctrl/axi_e310_vcxo_ctrl.v:157-271 | Likewise from power-on, in objects the caller makes |
| EndToEnd.BoardProjection | boards/e310/hw/fpga/library/axi_e310_vcxo_ctrl/e310_ref_pll.v:295-304 | The serialiser of the composed board sees exactly the active DAC values of the 200 MHz edges out of reset |
| EndToEnd.ManualInputs | boards/e310/hw/fpga/library/axi_e310_vcxo_ctrl/e310_ref_pll.v:295 | Settled in manual mode, the serialiser's input is the manual value at every edge until the next write, whatever the reference PLL does |
| EndToEnd.ManualValueReachesDac | boards/e310/hw/fpga/library/axi_e310_vcxo_ctrl/axi_e310_vcxo_ctrl_regmap.v:41-59 | After any history of bus writes that leaves manual mode on, eighteen quiet rounds and two frame times later the last complete frame on the DAC's wires carries the register map's manual value, the bus is idle, and so it stays until the next write |
| EndToEnd.SoftwareSetsDac | boards/e310/hw/fpga/library/axi_e310_vcxo_ctrl/axi_e310_vcxo_ctrl_regmap.v:41-59 | In numbers: after any history, a write of a value to register 1 and of an odd number to register 0, then eighteen quiet rounds and two frame times, leave 0x300000 plus the low 16 bits of the value as the last 24 bits on the DAC's wires |
| EndToEnd.SoftwareReadsBack | boards/e310/hw/fpga/library/axi_e310_vcxo_ctrl/axi_e310_vcxo_ctrl.v:224-271 | Settled in manual mode with steady flags, twenty-five more rounds and the word software reads is the manual value with those flags, and stays so |
| Ltc2630.FrameReadsBack | boards/e310/hw/fpga/library/axi_e310_vcxo_ctrl/ltc2630_spi.v:50 | The 24 bits of a frame, most significant first, read as 0x30 followed by the 16-bit value |
| Ltc2630.StepInv | boards/e310/hw/fpga/library/axi_e310_vcxo_ctrl/ltc2630_spi.v:43-87 | Every edge keeps the driver's invariant: the bits still to be sent stand at the front of the shift register and SYNC and SCLK match the phase |
| Ltc2630.StartsAreCompleted | boards/e310/hw/fpga/library/axi_e310_vcxo_ctrl/ltc2630_spi.v:48-84 | The value under way followed by the inputs at frame starts equals the values completed followed by the value under way |
| Ltc2630.HeardIsCompleted | boards/e310/hw/fpga/library/axi_e310_vcxo_ctrl/ltc2630_spi.v:43-87 | A listener that samples MOSI on rising SCLK while SYNC is low hears exactly the frames that complete, whatever the input does meanwhile |
| Ltc2630.EveryFrameIsHeard | boards/e310/hw/fpga/library/axi_e310_vcxo_ctrl/ltc2630_spi.v:43-87 | From reset, for every input waveform and every divider setting from 1 to 65536, each completed frame has exactly 24 rising SCLK edges and reads as 0x30 and the input at its start, once for each start in order |
| Ltc2630.LastValueIsLastFrame | boards/e310/hw/fpga/library/axi_e310_vcxo_ctrl/ltc2630_spi.v:80-84 | The remembered value is the value of the last completed frame |
| Ltc2630.NeighboursDiffer | boards/e310/hw/fpga/library/axi_e310_vcxo_ctrl/ltc2630_spi.v:48 | No frame repeats the value of the frame before it |
| Ltc2630.FrameLasts | boards/e310/hw/fpga/library/axi_e310_vcxo_ctrl/ltc2630_spi.v:58-85 | A frame under way completes after exactly the edges left of 2 + 48 * CLOCK_DIVIDER, and not before |
| Ltc2630.FrameTakes | boards/e310/hw/fpga/library/axi_e310_vcxo_ctrl/ltc2630_spi.v:44-85 | From its start a frame takes exactly 2 + 48 * CLOCK_DIVIDER edges, whatever the input does meanwhile |
| Ltc2630.HeldInputArrives | boards/e310/hw/fpga/library/axi_e310_vcxo_ctrl/ltc2630_spi.v:44-85 | From any reachable state an input held for two frame times is in the DAC and the bus idle; the time left counts down by one an edge |
| Ltc2630.OtherDividersNeverClock | boards/e310/hw/fpga/library/axi_e310_vcxo_ctrl/ltc2630_spi.v:58-74 | With a divider setting outside 1 to 65536 the 16-bit counter misses its target: SCLK never rises and no frame completes |
| Ltc2630.MosiIsStable | boards/e310/hw/fpga/library/axi_e310_vcxo_ctrl/ltc2630_spi.v:58-75 | From reset MOSI holds its value, with SYNC low, for CLOCK_DIVIDER edges before and from every rising SCLK |
| Ltc2630.Serializer.Tick | boards/e310/hw/fpga/library/axi_e310_vcxo_ctrl/ltc2630_spi.v:31-89 | The driver's registers, updated in place, take the values of the step that those lemmas are about |
| RefClassifier.ClassifierIsHistory | boards/e310/hw/fpga/library/axi_e310_vcxo_ctrl/e310_ref_pll.v:87-117 | For every history of reference edges: the count is the exact distance to the latest edge and never exceeds 200,040,001; the reference is taken for 10 MHz if and only if the last two edges are 19, 20 or 21 cycles apart, and for PPS if and only if they are 199,960,000 to 200,040,000 apart, in either case as long as the latest is at most 200,040,001 cycles ago |
| RefClassifier.RBoundSurvives | boards/e310/hw/fpga/library/axi_e310_vcxo_ctrl/e310_ref_pll.v:119-140 | With the R counter in range, one more cycle leaves it in range if and only if the reference does not turn from 10 MHz to PPS part-way through a count |
| RefClassifier.NBoundSurvives | boards/e310/hw/fpga/library/axi_e310_vcxo_ctrl/e310_ref_pll.v:119-159 | The N counter likewise, if and only if PPS does not turn to 10 MHz with the count above the smaller divider |
| RefClassifier.CountsStayInRange | boards/e310/hw/fpga/library/axi_e310_vcxo_ctrl/e310_ref_pll.v:77-159 | In a run from reset both counts are below their dividers in every cycle with an accepted reference if and only if no cycle makes one of these two changes |
| RefSwitch.FrontOfRun | boards/e310/hw/fpga/library/axi_e310_vcxo_ctrl/e310_ref_pll.v:77-159 | In every run of the PLL classifier and dividers move as they do alone, driven by the rising-edge wire of the run |
| RefSwitch.PinDrives | boards/e310/hw/fpga/library/axi_e310_vcxo_ctrl/e310_ref_pll.v:73-85 | Conversely every history of that wire without neighbouring edges is one that samples of the pin drive it with, from reset and three cycles later |
| RefSwitch.DirectSwitchOverrunsR | boards/e310/hw/fpga/library/axi_e310_vcxo_ctrl/e310_ref_pll.v:119-140 | For every number of 10 MHz edges from 2 to below a division, then an edge about a second later, all on the pin and from reset: PPS is recognised with the R counter past its end, so the bound is false across a direct switch |
| RefSwitch.OverrunStaysSilent | boards/e310/hw/fpga/library/axi_e310_vcxo_ctrl/e310_ref_pll.v:130-138 | From there, while PPS lasts, each edge counts and none is divided, for as many edges as it takes the 24-bit counter to wrap, however long they take |
| RefSwitch.DirectSwitchOverrunsN | boards/e310/hw/fpga/library/axi_e310_vcxo_ctrl/e310_ref_pll.v:119-159 | At every phase of the divided clock, two PPS periods, the second short of a full count, and an edge 19 to 21 cycles later, all on the pin and from reset, make 10 MHz recognised with the N counter at 19,996,001 or more of a divider of 2,000,000: the other bound is false across a direct switch |
| RefSwitch.OverrunStopsClock | boards/e310/hw/fpga/library/axi_e310_vcxo_ctrl/e310_ref_pll.v:149-157 | From there, while 10 MHz lasts, every cycle counts and no tick is divided until the 26-bit counter wraps |
| RefPllDevice.RisesEveryTen | boards/e310/hw/fpga/library/axi_e310_vcxo_ctrl/e310_ref_pll.v:63-85 | From cycle 23 on, at each of the five phases of the 40 MHz clock, the halved clock behind its reset synchroniser and four flip-flops rises exactly every ten cycles |
| RefPllDevice.DeviceIsPll | boards/e310/hw/fpga/library/axi_e310_vcxo_ctrl/e310_ref_pll.v:52-293 | For every input and every phase of the 40 MHz clock, the PLL fed by its real clock registers runs exactly as the PLL with a tick every ten cycles: no reference is accepted before the registers have settled, so that their start never shows |
| RefPllDevice.ReferencePll.Tick | boards/e310/hw/fpga/library/axi_e310_vcxo_ctrl/e310_ref_pll.v:52-293 | One sample clock edge of all registers, those of the reference clock included, block by block with the wires sampled before the edge, is a step of the device those lemmas are about |
| RefPllDevice.ReferencePll.SampleClock | boards/e310/hw/fpga/library/axi_e310_vcxo_ctrl/e310_ref_pll.v:52-85 | The registers on and behind the 40 MHz clock, in place, with an edge of that clock in every fifth cycle |
| RefPllDevice.ReferencePll.ClassifyReference | boards/e310/hw/fpga/library/axi_e310_vcxo_ctrl/e310_ref_pll.v:90-117 | The classifier block, in place |
| RefPllDevice.ReferencePll.DivideReference | boards/e310/hw/fpga/library/axi_e310_vcxo_ctrl/e310_ref_pll.v:125-140 | The R divider block with its 24-bit counter, in place |
| RefPllDevice.ReferencePll.DivideClock | boards/e310/hw/fpga/library/axi_e310_vcxo_ctrl/e310_ref_pll.v:144-159 | The N divider block with its 26-bit counter, in place |
| RefPllDevice.ReferencePll.MeasurePeriod | boards/e310/hw/fpga/library/axi_e310_vcxo_ctrl/e310_ref_pll.v:166-176 | The period block in 29-bit registers, in place |
| RefPllDevice.ReferencePll.FollowLead | boards/e310/hw/fpga/library/axi_e310_vcxo_ctrl/e310_ref_pll.v:182-201 | The lead block in 29-bit registers, in place |
| RefPllDevice.ReferencePll.ControlLoop | boards/e310/hw/fpga/library/axi_e310_vcxo_ctrl/e310_ref_pll.v:225-286 | The nine-state loop with its 29-bit intermediate registers and clamped output, in place |
| RefPllInvariant.NoCounterWraps | boards/e310/hw/fpga/library/axi_e310_vcxo_ctrl/e310_ref_pll.v:123-253 | In every state with the invariant and an accepted reference, the wait for a timeout included: both divider counts are below their dividers, the measured period is below 221,039,980, the lead count above -200,000,000, the loop is in MEASURE at every divided edge, and the combined error stays within 11,000,000 at 10 MHz and 100,040,000 at PPS |
| RefPllInvariant.StepR | boards/e310/hw/fpga/library/axi_e310_vcxo_ctrl/e310_ref_pll.v:123-176 | A cycle keeps the bounds that tie the measured period to the number of edges counted |
| RefPllInvariant.StepN | boards/e310/hw/fpga/library/axi_e310_vcxo_ctrl/e310_ref_pll.v:142-201 | A cycle keeps the tie between lead counter and N divider |
| RefPllInvariant.StepTiming | boards/e310/hw/fpga/library/axi_e310_vcxo_ctrl/e310_ref_pll.v:236-284 | A cycle keeps the loop ahead of the next divided edge |
| RefPllInvariant.ControlData | boards/e310/hw/fpga/library/axi_e310_vcxo_ctrl/e310_ref_pll.v:236-284 | Each stage of an update holds, modulo 2^29, what integer arithmetic says of the captured error |
| RefPllInvariant.GainIsPower | boards/e310/hw/fpga/library/axi_e310_vcxo_ctrl/e310_ref_pll.v:258-263 | At 10 MHz the shift is the smaller of |e| and 7 for every error e, and with it the gain 1, 2, 4 and so on to 128 |
| RefPllInvariant.StepKeepsInv | boards/e310/hw/fpga/library/axi_e310_vcxo_ctrl/e310_ref_pll.v:77-293 | Every cycle without a direct switch keeps the whole invariant, through loss and return of the reference |
| RefPllInvariant.RunKeepsInv | boards/e310/hw/fpga/library/axi_e310_vcxo_ctrl/e310_ref_pll.v:77-293 | So does every run without one |
| RefPllInvariant.RunNeverWraps | boards/e310/hw/fpga/library/axi_e310_vcxo_ctrl/e310_ref_pll.v:77-293 | So in every run from reset without a direct switch, at every phase of the divided clock, no counter comes near its width and no update is still under way at the next divided edge, with the same numbers |
| RefPllTheorems.LeadIsHistory | boards/e310/hw/fpga/library/axi_e310_vcxo_ctrl/e310_ref_pll.v:182-201 | At every cycle of a run the lead equals what the history of divided edges says: 0 for a simultaneous clock edge, otherwise minus the cycles since the latest clock edge at or after the previous reference edge, otherwise 1 |
| RefPllTheorems.PeriodIsHistory | boards/e310/hw/fpga/library/axi_e310_vcxo_ctrl/e310_ref_pll.v:161-176 | At every cycle of such a run the measured period is the exact number of cycles since the latest divided reference edge, and the frequency error is the expected period less the exact distance between the two latest ones |
| RefPllTheorems.PhaseIsNearest | boards/e310/hw/fpga/library/axi_e310_vcxo_ctrl/e310_ref_pll.v:215-253 | The captured phase is congruent to the lead, at most half a period, and no other congruent value is smaller in magnitude |
| RefPllTheorems.LockMeansThreeGoodCaptures | boards/e310/hw/fpga/library/axi_e310_vcxo_ctrl/e310_ref_pll.v:213-293 | In every run from reset without a direct switch, the empty one included, locked is high after it if and only if a cycle before its end the reference was accepted and the three latest captures since it was accepted all lay within 20 cycles of zero at 10 MHz, or within 200 at PPS |
| RefPllTheorems.LossForgets | boards/e310/hw/fpga/library/axi_e310_vcxo_ctrl/e310_ref_pll.v:119-293 | In every run, a cycle without an accepted reference leaves nothing that was measured before it: dividers, period, lead, loop with its lock history and the locked output are as at reset, the DAC at the holdover value |
| RefPllTheorems.EdgeUpdatesDac | boards/e310/hw/fpga/library/axi_e310_vcxo_ctrl/e310_ref_pll.v:236-284 | From a divided edge, eight cycles later at 10 MHz and seven at PPS, the DAC value is the old one plus e times 2 to the smaller of |e| and 7 at 10 MHz, or 15 times e at PPS, for the captured error e, kept to 29 bits of two's complement and clamped to 16 |
| RefPllTheorems.DacUpdateExactly | boards/e310/hw/fpga/library/axi_e310_vcxo_ctrl/e310_ref_pll.v:264-282 | The update equals unbounded integer arithmetic if and only if the 29-bit sum fits or wraps back onto the same side of the clamp |
| RefPllTheorems.SmallErrorIsExact | boards/e310/hw/fpga/library/axi_e310_vcxo_ctrl/e310_ref_pll.v:264-282 | It does so for every DAC value when the error is at most 2,096,640 at 10 MHz or 17,891,328 at PPS |
| RefPllTheorems.OneMoreOverflows | boards/e310/hw/fpga/library/axi_e310_vcxo_ctrl/e310_ref_pll.v:264-282 | Those bounds are the best possible: one more, with the DAC full, drops it to zero |
| RefPllTheorems.LargeErrorReverses | boards/e310/hw/fpga/library/axi_e310_vcxo_ctrl/e310_ref_pll.v:264-282 | Beyond them a whole band of positive errors, of either kind of reference, drives any DAC value to zero, and the mirrored band drives it to full scale exactly when the sum underflows |
| RefPllTheorems.CorrectionIsMonotone | boards/e310/hw/fpga/library/axi_e310_vcxo_ctrl/e310_ref_pll.v:258-268 | The correction is odd and strictly increasing in the error, across the changes of gain |
| RefPllTheorems.DacFollowsError | boards/e310/hw/fpga/library/axi_e310_vcxo_ctrl/e310_ref_pll.v:264-282 | So a small error never moves the DAC the wrong way, and leaves it only at zero error or at the end of its range |
| RefPllFold.StepDac | boards/e310/hw/fpga/library/axi_e310_vcxo_ctrl/e310_ref_pll.v:225-286 | Every cycle keeps the DAC value in step with the history: between updates the fold of all its edges, during one the fold up to the edge that started it, which is as old as the loop's state says, with no edge in between |
| RefPllFold.DacIsFold | boards/e310/hw/fpga/library/axi_e310_vcxo_ctrl/e310_ref_pll.v:119-286 | In every run from reset without a direct switch, at every cycle with an accepted reference, the DAC value is a function of the history of divided edges alone: from the holdover value, one update an edge since the reference was accepted, with the power of two or the 15 of EdgeUpdatesDac for the error made of the nearest phase and the shortfall of the period that the history before the edge gives, up to the edges of the last seven cycles at 10 MHz and six at PPS |
| RefPllFold.SmallErrorsFoldExactly | boards/e310/hw/fpga/library/axi_e310_vcxo_ctrl/e310_ref_pll.v:264-282 | With small errors throughout, that fold is the one in unbounded integers |
| RefPllOverflow.RunIsLaps | boards/e310/hw/fpga/library/axi_e310_vcxo_ctrl/e310_ref_pll.v:77-201 | From reset, at every phase of the divided clock, with a reference at the fast edge of what is accepted, every 19 cycles or every 199,960,000: both dividers, the period, the frequency error and the enable of the lead counter are explicit functions of the cycle, up to the lap after the overflow |
| RefPllOverflow.ErrorAtEdge | boards/e310/hw/fpga/library/axi_e310_vcxo_ctrl/e310_ref_pll.v:142-253 | In that run the error of the k-th divided edge is k + 1 times what a period falls short, less what the N divider had counted when the reference was accepted |
| RefPllOverflow.OverflowIsReached | boards/e310/hw/fpga/library/axi_e310_vcxo_ctrl/e310_ref_pll.v:236-284 | So the overflow is reachable from reset with either reference: the second divided edge at 10 MHz, and the 447th at PPS, find an error near 3,000,000 and 17,920,000 for which integer arithmetic asks for full scale, and the update drops the DAC to zero |
| RefPllFrames.EdgeFindsIdle | boards/e310/hw/fpga/library/axi_e310_vcxo_ctrl/e310_ref_pll.v:225-304 | With two frames begun at most eight cycles into a period of the PLL, the bus is idle and the DAC up to date at its end, at every divider setting from 1 to 65536 |
| RefPllFrames.StepTimely | boards/e310/hw/fpga/library/axi_e310_vcxo_ctrl/e310_ref_pll.v:225-304 | Every cycle of PLL and serialiser together keeps the count-down: in MEASURE the time the serialiser still needs runs down from two frames with the period, and through an update it needs none |
| RefPllFrames.StepSending | boards/e310/hw/fpga/library/axi_e310_vcxo_ctrl/e310_ref_pll.v:225-304 | Every cycle keeps the order of values: one waits behind a frame only while it is the holdover value, and none changes behind one that waits |
| RefPllFrames.ChangesAreStarted | boards/e310/hw/fpga/library/axi_e310_vcxo_ctrl/e310_ref_pll.v:295-304 | Over any run without a direct switch the changes of the automatic DAC value are the frames started, each once and in order, and at most one that still waits |
| RefPllFrames.EveryValueIsSent | boards/e310/hw/fpga/library/axi_e310_vcxo_ctrl/e310_ref_pll.v:225-304 | From reset, in every run without a direct switch and however often the reference is lost, the frames the DAC hears are exactly the values the loop gives it, one frame a change, in order, at most two still to come; and at every divided edge of an accepted reference, before the update it causes, none is to come and the last frame heard carries the DAC value |
| AutomaticMode.MachineProjection | boards/e310/hw/fpga/library/axi_e310_vcxo_ctrl/axi_e310_vcxo_ctrl.v:273-289 | Controller with serialiser, and PLL, each run in the whole device as they do alone, the PLL on the 200 MHz edges out of reset |
| AutomaticMode.StepAutomatic | boards/e310/hw/fpga/library/axi_e310_vcxo_ctrl/axi_e310_vcxo_ctrl.v:169-220 | While no write sets the manual mode bit, no word with it is anywhere on its way to the 200 MHz domain, whatever torn samples there are |
| AutomaticMode.WiresArePll | boards/e310/hw/fpga/library/axi_e310_vcxo_ctrl/axi_e310_vcxo_ctrl.v:100-105 | Then the word the status mailbox watches is the PLL's DAC value, PPS, 10 MHz and lock flags of that cycle, and the value the serialiser is clocked with the PLL's |
| AutomaticMode.ReadsAreSnapshots | boards/e310/hw/fpga/library/axi_e310_vcxo_ctrl/axi_e310_vcxo_ctrl.v:224-271 | For every status word software reads there is a cycle of the PLL's run at which its DAC value, its PPS flag, its 10 MHz flag and its lock are those of the word, all four; these cycles come strictly in order, and the register holds the last such word or zero before the first |
| AutomaticMode.ReadValuesAreSent | boards/e310/hw/fpga/library/axi_e310_vcxo_ctrl/axi_e310_vcxo_ctrl.v:224-271 | In every run from power-on without a direct switch the DAC values software reads are, in order, values the DAC is sent: the frames heard are the changes of the value with at most two still to come, and each word read carries one of these changes, never an earlier one than the word before |
| SpdxGrammar.ParserIsTheGrammar | tools/license_audit.py:124-174 | For every token sequence and tree, recursive descent returns the tree if and only if it is well formed (WITH only after a single identifier) and derives the whole sequence: sound, complete, at any nesting |
| SpdxGrammar.AcceptedIsDerivable | tools/license_audit.py:124-174 | A token sequence is accepted if and only if the grammar derives it |
| SpdxGrammar.GrammarIsUnambiguous | tools/license_audit.py:142-174 | No token sequence has two readings |
| SpdxGrammar.OrComplete | tools/license_audit.py:142-146 | Every disjunction is found in front of whatever cannot extend it |
| SpdxErrors.ParseErrorIsFirst | tools/license_audit.py:124-174 | One pass over the tokens, with the kind of the last token and the number of open groups and no recursion into the grammar, accepts the same token sequences as the recursive descent and refuses every other one with the same error and the same token in it |
| SpdxErrors.RefusedAtFirstBadToken | tools/license_audit.py:124-174 | What is refused only for its end is the beginning of some accepted expression; what is refused for any other reason is the beginning of none, and is refused in the same way whatever follows |
| SpdxGrammar.DistinctIsFirstOccurrences | tools/license_audit.py:128 | Removing repeats keeps the same identifiers, in the order of their first occurrences |
| SpdxTokens.TokenEndsWhereWritten | tools/license_audit.py:34 | At a keyword or an unhidden identifier followed by a space or the end, the scanner takes exactly that token |
| SpdxTokens.HiddenToken | tools/license_audit.py:34 | An identifier that begins with a keyword and then `.`, `+` or `-` breaks the scan wherever it stands |
| SpdxTokens.ScanWritten | tools/license_audit.py:110-122 | Scanning tokens written with single spaces yields those tokens if all are clean and fails otherwise |
| SpdxTokens.AsOrFacts | tools/license_audit.py:142-174 | Printing with only the parentheses precedence requires keeps identifiers, their order and the meaning of the expression |
| SpdxTokens.PrintParse | tools/license_audit.py:103-128 | For every expression tree whose identifiers have the shape of one: tokenising and parsing its printed form returns its licences and exceptions in first-occurrence order without repeats if and only if none begins with a keyword at whose end a word ends |
| SpdxTokens.PrintParseMeaning | tools/license_audit.py:142-174 | The tree read back is the one printed and grants what the expression grants under every set of grants |
| SpdxLayout.IdentifierEndsHere | tools/license_audit.py:34 | An identifier, with its characters given as ASCII letters, digits, `.`, `+` and `-` and without a keyword at its front, is taken as far as such characters go and no further: any other character ends it |
| SpdxLayout.AnyLayoutIsRead | tools/license_audit.py:110-122 | Tokens in any layout, with any white space around and between them and none needed beside a bracket, are read back if all are such identifiers, keywords or brackets, and the text is refused if one begins with a keyword and then `.`, `+` or `-` |
| SpdxLayout.EveryLayoutParses | tools/license_audit.py:103-128 | So every expression of the grammar is understood in every layout of its tokens, redundant parentheses included, and returns its distinct licences and exceptions, under the same condition |
| SpdxLayout.OneIdentifierExactly | tools/license_audit.py:103-128 | A text is read as the one identifier that it is if and only if it is an ASCII letter or digit followed by ASCII letters, digits, `.`, `+` and `-`, is no keyword and has none before a `.`, `+` or `-` at its front |
| SpdxLayout.OnlyWhiteIsDropped | tools/license_audit.py:104-105 | A character that is no bracket is passed over before an identifier if and only if it is one of the 29 white space characters of Python's str, by number |
| SpdxLayout.EmptyIsWhite | tools/license_audit.py:104-113 | A text is refused as empty if and only if it is nothing but such white space |
| SpdxLayout.ColumnIsPastTokens | tools/license_audit.py:113-121 | The column of an unexpected character is one past the tokens read before it: the text cut there is read without an error, and behind it, white space skipped, no token starts |
| SpdxParser.ScanTokens | tools/license_audit.py:110-122 | The tokeniser's loop returns what the recursive scan does, with the column of the failure |
| SpdxParser.ExpressionParser.Parse | tools/license_audit.py:124-128 | The object returns the distinct identifiers of the grammar's tree, or the grammar's error |
| SpdxParser.ExpressionParser.ParseOr | tools/license_audit.py:142-146 | The loop over OR reaches the token that follows the longest disjunction, appends exactly its identifiers to both lists, and fails as the grammar function does |
| SpdxParser.ExpressionParser.ParseAnd | tools/license_audit.py:148-152 | The loop over AND likewise |
| SpdxParser.ExpressionParser.ParseWith | tools/license_audit.py:154-163 | WITH is refused after a group and takes one exception that is no keyword |
| SpdxParser.ExpressionParser.ParsePrimary | tools/license_audit.py:165-174 | An identifier or a group, and whether it was a single identifier |
| SpdxParser.ReadExpression | tools/license_audit.py:177-178 | From text to identifiers: the object agrees with the specification that the print-parse theorem is about |
| Uenv.AllowedKeys | boards/e310/hw/uboot/cmd/antsdr_uenv.c:15-26 | For every byte string the two length-and-strncmp tests pass if and only if it is rf_model or rf_topology |
| Uenv.TrimRange | boards/e310/hw/uboot/cmd/antsdr_uenv.c:28-37 | The moving cursors stay in the range and end on the trimmed text |
| Uenv.SplitLine | boards/e310/hw/uboot/cmd/antsdr_uenv.c:62-79 | Within bounds, the scan of one line finds an allowed key and its value exactly when the line specification has one |
| Uenv.Set | boards/e310/hw/uboot/cmd/antsdr_uenv.c:80-98 | The two local buffers are never overrun, and the value handed to setenv is the trimmed value as a C string, or nothing when it is oversized |
| Uenv.ImportLine | boards/e310/hw/uboot/cmd/antsdr_uenv.c:62-98 | One line makes the assignment the line specification says and stops the import exactly when it does |
| Uenv.ImportBuffer | boards/e310/hw/uboot/cmd/antsdr_uenv.c:39-104 | The in-place scan over a buffer, in bounds and terminating, is the fold of the line effects, for every buffer, size and pattern of setenv failures |
| Uenv.ImportIsLocked | boards/e310/hw/uboot/cmd/antsdr_uenv.c:78-98 | Assignments are only added, each to one of the two selectors with a value under 32 characters that some line asks for, even when the import stops early |
| Uenv.OnlySelectorsChange | boards/e310/hw/uboot/cmd/antsdr_uenv.c:39-104 | No other variable changes, whatever the text |
| Uenv.LastAssignmentHolds | boards/e310/hw/uboot/cmd/antsdr_uenv.c:94 | A selector ends with the value of its last accepted assignment, or with none if that is empty and the boot loader deletes names with empty values |
| Uenv.OversizedStops | boards/e310/hw/uboot/cmd/antsdr_uenv.c:86-98 | Whichever calls to setenv fail: of the assignments asked for before the first oversized value exactly those before the first failure are made, and the import succeeds if and only if all of them are and no value is oversized |
| Uenv.ProfileStops | tools/assemble_firmware.py:256 | What the pair the firmware assembly writes leaves, for all values without a line end and any failing calls: a long or refused model stops before anything is set, a long or refused topology after the model is |
| Uenv.ProfileIsRecovered | tools/assemble_firmware.py:256 | For every pair of values: it is recovered, whole and as the only assignments, if and only if neither has a line end, a NUL or a blank at an edge, both are under 32 characters and both calls succeed |
| UenvLines.NamedLine | boards/e310/hw/uboot/cmd/antsdr_uenv.c:62-98 | A line with blanks and tabs in front, a name that is rf_model or rf_topology, a first `=`, a value, and blanks, tabs and carriage returns behind name and value says: this value up to a NUL if it has under 32 characters, or too much |
| UenvLines.OtherLine | boards/e310/hw/uboot/cmd/antsdr_uenv.c:62-79 | And a line that says anything is written so |
| UenvLines.OnlyTheTwoNames | boards/e310/hw/uboot/cmd/antsdr_uenv.c:78-98 | Whatever the text and the failures, only rf_model and rf_topology are assigned, with values under 32 characters |
| UenvLines.ProfileComesBack | tools/assemble_firmware.py:256 | The two lines of a firmware profile, written out, give back both values if and only if neither has a line end, a NUL, a blank or tab at an edge or a carriage return at its end, both are under 32 characters and both calls succeed |
| ConfigValues.NetmaskIsPrefix | boards/e310/hw/buildroot/board/e310/runtime/sbin/antsdr-config:68-82 | Octets without leading zeros pass the netmask check if and only if they are some number of one bits followed by zero bits |
| ConfigValues.AcceptedNetmaskIsPrefix | boards/e310/hw/buildroot/board/e310/runtime/sbin/antsdr-config:68-82 | Leading zeros or not, whatever passes is a run of ones followed by zeros |
| ConfigAccepted.QuadIsWritten | boards/e310/hw/buildroot/board/e310/runtime/sbin/antsdr-config:58-65 | A record is an address if and only if it is four decimal numerals of at most 255 with dots between them |
| ConfigAccepted.MaskIsWritten | boards/e310/hw/buildroot/board/e310/runtime/sbin/antsdr-config:68-82 | Four numerals without leading zeros and with dots between them are a netmask if and only if their 32 bits are ones followed by zeros |
| ConfigAccepted.MaskIsDotted | boards/e310/hw/buildroot/board/e310/runtime/sbin/antsdr-config:68-82 | And every netmask is four numerals with dots between them that say such a mask |
| ConfigAccepted.ValidIsWritten | boards/e310/hw/buildroot/board/e310/runtime/sbin/antsdr-config:88-103 | Settings pass if and only if each value is of its kind, all kinds given without the checks: a hostname of at most 63 ASCII letters, digits and inner hyphens, addresses and netmasks on every line, the three Ethernet modes, dhcp or static with an address, 0 or 1, a numeral or nothing |
| ConfigFile.WrittenFileIsRead | boards/e310/hw/buildroot/board/e310/runtime/sbin/antsdr-config:105-141 | Reading a written file gives back every entry in its section and order with the first line of its value, comments and headings included, for all sections, keys and exportable values |
| ConfigFile.EntryMeans | boards/e310/hw/buildroot/board/e310/runtime/sbin/antsdr-config:128-138 | A written entry of several lines is read as one setting with the first line, and its other lines as nothing |
| ConfigLines.CommentLine | boards/e310/hw/buildroot/board/e310/runtime/sbin/antsdr-config:129-130 | A line of blanks, or one whose first character that is no blank is `#` or `;`, says nothing |
| ConfigLines.SectionLine | boards/e310/hw/buildroot/board/e310/runtime/sbin/antsdr-config:131-134 | A line of capitals and underscores in brackets, with any blanks around, opens the section of that name |
| ConfigLines.KeyLine | boards/e310/hw/buildroot/board/e310/runtime/sbin/antsdr-config:135-139 | A key, a first `=` and a value, with any blanks around each, are read as this key and this value, whatever further `=` the value has |
| ConfigLines.OtherLine | boards/e310/hw/buildroot/board/e310/runtime/sbin/antsdr-config:131-136 | And a line without `=` that is no name in brackets says nothing |
| ConfigLines.SettingsAreLines | boards/e310/hw/buildroot/board/e310/runtime/sbin/antsdr-config:128-139 | For every rule about keys, a setting is read if and only if its key is allowed in its section and some line gives the key this value in that section, the section being that of the latest heading before the line, or none before the first |
| ConfigNames.AllowedIsMeant | boards/e310/hw/buildroot/board/e310/runtime/sbin/antsdr-config:113-126 | The keys the reader lets through are exactly those the import assigns, aliases included |
| ConfigReference.KeysAreWritten | boards/e310/hw/buildroot/board/e310/runtime/sbin/antsdr-config:113-171 | Section and key set a setting if and only if they are one of fourteen pairs, listed with the setting of each, and the report flag for one more |
| BootScript.ScriptIsSpilled | boards/e310/hw/buildroot/board/e310/runtime/sbin/antsdr-config:192-205 | Read line by line as name and value, the script stores each setting cut at its first line end, and nothing under every further line of a value, taken as a name |
| Config.StoredSettings | boards/e310/hw/buildroot/board/e310/runtime/sbin/antsdr-config:192-205 | After a store every setting's name holds the first line of its value, an empty one being kept or deleted |
| Config.StoredOthers | boards/e310/hw/buildroot/board/e310/runtime/sbin/antsdr-config:192-205 | Every other name holds what it held, except that a name which is a further line of some value loses its own |
| Config.StoreTwice | boards/e310/hw/buildroot/board/e310/runtime/sbin/antsdr-config:192-205 | Storing what such a store leaves again changes nothing |
| ConfigReference.LoadedByName | boards/e310/hw/buildroot/board/e310/runtime/sbin/antsdr-config:28-37 | Loading gives every setting but the mode what the environment has under its name, listed name by name, or else its default, without the line ends at the end and nothing else taken off |
| ConfigReference.LoadedMode | boards/e310/hw/buildroot/board/e310/runtime/sbin/antsdr-config:33-45 | The network mode is the stored one if there is one, `static` if an address is loaded and no mode stored, and the default otherwise |
| ConfigReference.ScriptIsWritten | boards/e310/hw/buildroot/board/e310/runtime/sbin/antsdr-config:192-204 | The script for `fw_setenv` is these eleven lines in this order, name, blank and value |
| ConfigImport.LastSettingWins | boards/e310/hw/buildroot/board/e310/runtime/sbin/antsdr-config:156-171 | After the read loop a variable has the last value given to it by any of its keys, or the one it had |
| ConfigImport.StoredFirstLines | boards/e310/hw/buildroot/board/e310/runtime/sbin/antsdr-config:28-46 | Valid settings that were stored are loaded cut at their first line ends, over any earlier environment, with the empty ones falling back to empty defaults and the mode never inferred |
| ConfigImport.StoredIsLoaded | boards/e310/hw/buildroot/board/e310/runtime/sbin/antsdr-config:28-46 | So they are what is loaded if and only if no value has a line end |
| ConfigImport.ImportTwice | boards/e310/hw/buildroot/board/e310/runtime/sbin/antsdr-config:143-206 | Importing an accepted file again is accepted and changes nothing, despite aliases and the inferred network mode |
| ConfigImport.ImportKeepsTheRest | boards/e310/hw/buildroot/board/e310/runtime/sbin/antsdr-config:173-205 | An accepted import leaves valid settings and every name outside the eleven as it was, except that a name which is a further line of a value loses its own |
| ConfigImport.ExportIsImported | boards/e310/hw/buildroot/board/e310/runtime/sbin/antsdr-config:208-235 | Importing the export of valid settings over any recognised environment is accepted and leaves every value cut at its first line end |
| ConfigImport.RoundTripExactly | boards/e310/hw/buildroot/board/e310/runtime/sbin/antsdr-config:143-235 | So the settings come back if and only if no value has a line end |
| ConfigImport.TwoLineAddressPasses | boards/e310/hw/buildroot/board/e310/runtime/sbin/antsdr-config:56-66 | The condition is needed: any two addresses on two lines pass the address check, and only the first survives |
| ConfigImport.ShippedOptionalsAreEmpty | boards/e310/hw/buildroot/board/e310/defaults.conf:8-11 | The shipped defaults of the settings that may be empty are empty, as those theorems require |
| ConfigReference.ExportIsWritten | boards/e310/hw/buildroot/board/e310/runtime/sbin/antsdr-config:208-235 | The exported file is the comments and then these four sections in this order with these keys, the diagnostic report off |
| ConfigAccepted.ImportIsAccepted | boards/e310/hw/buildroot/board/e310/runtime/sbin/antsdr-config:156-190 | An import is accepted if and only if what it settles on is valid, the report flag is 0 or 1 and the environment is recognised by its qspiboot |
| ConfigAccepted.EmptyFileStoresDefaults | boards/e310/hw/buildroot/board/e310/runtime/sbin/antsdr-config:143-206 | Over an environment with none of the names, an empty file stores every default under its name, whatever valid defaults they are |
| ConfigAccepted.ShippedOverFresh | boards/e310/hw/buildroot/board/e310/defaults.conf:2-12 | So a fresh device that imports an empty file holds the shipped defaults, which pass the checks |
| ConfigTool.CheckQuad | boards/e310/hw/buildroot/board/e310/runtime/sbin/antsdr-config:58-65 | The loop over four fields accepts a record if and only if it is four decimal octets |
| ConfigTool.CheckMask | boards/e310/hw/buildroot/board/e310/runtime/sbin/antsdr-config:69-81 | The loop with its flag accepts a record exactly as the recursive check that the netmask theorem is about |
| ConfigTool.ParseConfig | boards/e310/hw/buildroot/board/e310/runtime/sbin/antsdr-config:105-141 | The reader's loop over lines with its section variable returns the settings of the specification |
| ConfigTool.Tool.LoadValues | boards/e310/hw/buildroot/board/e310/runtime/sbin/antsdr-config:28-46 | The eleven assignments in their order leave the loaded settings of the specification, mode inference last |
| ConfigTool.Tool.ValidateValues | boards/e310/hw/buildroot/board/e310/runtime/sbin/antsdr-config:88-103 | The checks in their order accept exactly the valid settings |
| ConfigTool.Tool.AssignSettings | boards/e310/hw/buildroot/board/e310/runtime/sbin/antsdr-config:156-171 | The read loop leaves the variables of the specification |
| ConfigTool.Tool.WriteScript | boards/e310/hw/buildroot/board/e310/runtime/sbin/antsdr-config:192-204 | The loop over the eleven names writes the script of the specification |
| ConfigTool.Tool.SetEnvironment | boards/e310/hw/buildroot/board/e310/runtime/sbin/antsdr-config:205 | Reading a script line by line as name and value leaves the environment of the specification |
| ConfigTool.Tool.StoreValues | boards/e310/hw/buildroot/board/e310/runtime/sbin/antsdr-config:192-205 | The script, written and then read, leaves the environment of the specification |
| ConfigTool.Tool.ImportConfig | boards/e310/hw/buildroot/board/e310/runtime/sbin/antsdr-config:143-206 | The whole import changes the environment as the specification says, with its error, and not at all when it is refused |
| ConfigTool.Tool.ExportConfig | boards/e310/hw/buildroot/board/e310/runtime/sbin/antsdr-config:208-235 | The whole export is the text that the round trip is about, of the loaded settings |

## Left out

- A reset of the 200 MHz side alone, the clock PLL and buffer primitives, and the AXI bus adapter: only clock edges and bus writes remain.
- The selection of the reference pin (`axi_e310_vcxo_ctrl.v:88-90`) and the two lock outputs (`axi_e310_vcxo_ctrl.v:116-117`): the PLL's sample is the selected pin.
- The register read multiplexer and its acknowledge (`axi_e310_vcxo_ctrl_regmap.v:63-81`): one lookup.
- The recovery branches for unused state encodings (`e310_ref_pll.v:283`, `ltc2630_spi.v:86`): the model's states have no such values.
- The analogue loop: no model of the oscillator is in the repository, so nothing is said about convergence.
- AutomaticMode.ReadValuesAreSent: for runs in automatic mode throughout, like EveryValueIsSent; manual mode is the subject of ManualValueReachesDac, and a change of mode in the middle of a run that of neither.
- The bound of Python's recursion on deeply nested expressions; the model's recursion is unbounded.
- SpdxTokens.ScanWritten: word characters beyond ASCII are all taken to count as part of a word, which the identifier pattern makes immaterial.
- The licence policy, header scanning, file matching and reporting around the expression parser.
- The argument checks of the uEnv command (`antsdr_uenv.c:106-123`) and its messages with the count of imported values.
- ConfigTool.CheckMask: fields are compared as strings of digits; which other texts (signs, exponents, surrounding blanks, octal) equal 0 or 255 differs from one awk to another and is not modelled, so the checked masks are the portable ones.
- ConfigValues.AcceptedNetmaskIsPrefix: likewise for texts of digits only.
- ConfigTool.ParseConfig: the temporary file between awk and the shell loop, whose tab-separated fields carry trimmed values unchanged.
- ConfigImport.ExportIsImported: comment lines are any lines that start with `#`; the template's three are instances.
- The unreadable-file error, file permissions, traps, and the diagnostic, action and get commands of the configuration script.
- Firmware packaging, update, release, SBOM and hardware build tooling, init scripts and services: file copying and field comparison.
