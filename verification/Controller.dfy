/**
 The registers of the controller as objects that each clock edge updates in
 place.  Every tick is proved against the step functions of the protocol, so
 what is proved about runs of those functions holds of these objects.
 */
module Controller {
  import opened Basics
  import opened RegisterMap
  import opened Mailbox
  import StatusReturn
  import VcxoControl

  /** The sending half of a mailbox. */
  class MailboxSender<W(==)> {
    var mailbox: W
    var queued: W
    var request: bool
    var dirty: bool
    var ackSync: Sync3

    function Contents(): Sender<W>
      reads this
    {
      Sender(mailbox, queued, request, dirty, ackSync)
    }

    constructor (zero: W)
      ensures Contents() == Reset(zero).tx
    {
      mailbox, queued, request, dirty := zero, zero, false, false;
      ackSync := Sync3(false, false, false);
    }

    method Tick(offer: Option<W>, ackSample: bool)
      modifies this
      ensures Contents() == SenderTick(old(Contents()), offer, ackSample)
    {
      // The wire is sampled before the edge.
      var pending := request != ackSync.s2;
      ackSync := ackSync.Shift(ackSample);
      if offer.Some? {
        if pending {
          queued := offer.value;
          dirty := true;
        } else {
          mailbox := offer.value;
          request := !request;
          dirty := false;
        }
      } else if !pending && dirty {
        mailbox := queued;
        request := !request;
        dirty := false;
      }
    }
  }

  /** The receiving half of a mailbox. */
  class MailboxReceiver<W> {
    var busMeta: W
    var busSync: W
    var requestSync: Sync3
    var ack: bool
    var word: W

    function Contents(): Receiver<W>
      reads this
    {
      Receiver(busMeta, busSync, requestSync, ack, word)
    }

    constructor (zero: W)
      ensures Contents() == Reset(zero).rx
    {
      busMeta, busSync, word, ack := zero, zero, zero, false;
      requestSync := Sync3(false, false, false);
    }

    method Tick(busSample: W, requestSample: bool)
      modifies this
      ensures Contents() == ReceiverTick(old(Contents()), busSample, requestSample)
    {
      if requestSync.s2 != ack {
        word := busSync;
        ack := requestSync.s2;
      }
      busSync := busMeta;
      busMeta := busSample;
      requestSync := requestSync.Shift(requestSample);
    }
  }

  /** Both ends of one mailbox and, for each crossing, whether it moved since it was last sampled. */
  class MailboxLink<W(==)> {
    const sender: MailboxSender<W>
    const receiver: MailboxReceiver<W>
    var forwardMoved: bool
    var backMoved: bool

    function Contents(): Link<W>
      reads this, sender, receiver
    {
      Link(sender.Contents(), receiver.Contents(), forwardMoved, backMoved)
    }

    constructor (zero: W)
      ensures fresh(sender) && fresh(receiver)
      ensures Contents() == Reset(zero)
    {
      sender := new MailboxSender(zero);
      receiver := new MailboxReceiver(zero);
      forwardMoved, backMoved := false, false;
    }

    method SenderClock(offer: Option<W>, ackNoise: bool)
      modifies this, sender
      ensures Contents() == Step(old(Contents()), SendTick(offer, ackNoise))
    {
      var request, mailbox := sender.request, sender.mailbox;
      sender.Tick(offer, if backMoved then ackNoise else receiver.ack);
      forwardMoved := forwardMoved || sender.request != request || sender.mailbox != mailbox;
      backMoved := false;
    }

    method ReceiverClock(busNoise: W, requestNoise: bool)
      modifies this, receiver
      ensures Contents() == Step(old(Contents()), ReceiveTick(busNoise, requestNoise))
    {
      var ack := receiver.ack;
      receiver.Tick(if forwardMoved then busNoise else sender.mailbox,
                    if forwardMoved then requestNoise else sender.request);
      backMoved := backMoved || receiver.ack != ack;
      forwardMoved := false;
    }
  }

  /** The whole controller: register file, a mailbox each way, and the 200 MHz reset release. */
  class Controller {
    const registers: RegisterFile
    const control: MailboxLink<Registers>
    const status: MailboxLink<Status>
    var release: Sync3

    function Contents(): VcxoControl.System
      reads this, registers, control, control.sender, control.receiver, status, status.sender, status.receiver
    {
      VcxoControl.System(registers.Contents(), control.Contents(), status.Contents(), release)
    }

    predicate Valid() {
      && (control.sender as object) != (status.sender as object)
      && (control.receiver as object) != (status.receiver as object)
      && (control as object) != (status as object)
    }

    /** What the clocks change. */
    ghost function Parts(): set<object> {
      {registers, control, control.sender, control.receiver, status, status.sender, status.receiver}
    }

    constructor ()
      ensures Valid() && Contents() == VcxoControl.PowerOn()
      ensures fresh(Parts())
    {
      registers := new RegisterFile();
      control := new MailboxLink(CLEARED);
      status := new MailboxLink(NO_STATUS);
      release := Sync3(true, true, true);
    }

    method AxiClock(write: Option<RegisterWrite>, ackNoise: bool, statusNoise: Status, requestNoise: bool)
      requires Valid()
      modifies registers, control, control.sender, status, status.receiver
      ensures Contents() == VcxoControl.Step(old(Contents()),
                                             VcxoControl.AxiEdge(write, ackNoise, statusNoise, requestNoise))
    {
      // The wires are sampled before the edge.
      var offer := ControlWires(write);
      control.SenderClock(offer, ackNoise);
      status.ReceiverClock(statusNoise, requestNoise);
      registers.Tick(write);
    }

    method ControlWires(write: Option<RegisterWrite>) returns (offer: Option<Registers>)
      ensures offer == VcxoControl.ControlOffer(registers.Contents(), write)
    {
      offer := None;
      if write.Some? {
        var register, data := write.value.address % 16, write.value.data;
        var select, dac, mode := registers.referenceSelect, registers.manualDac, registers.manualMode;
        if register == REG_CONTROL || register == REG_MANUAL || register == REG_REFERENCE {
          offer := Some(
            if register == REG_CONTROL then Registers(select, dac, data % 2 == 1)
            else if register == REG_MANUAL then Registers(select, data % 0x1_0000, mode)
            else Registers(data % 4, dac, mode));
        }
      }
    }

    method VcxoClock(automaticDac: Word16, isPps: bool, is10m: bool, locked: bool,
                     ackNoise: bool, controlNoise: Registers, requestNoise: bool)
      requires Valid()
      modifies this, control, control.receiver, status, status.sender
      ensures Contents() == VcxoControl.Step(old(Contents()),
                                             VcxoControl.VcxoEdge(automaticDac, isPps, is10m, locked,
                                                                  ackNoise, controlNoise, requestNoise))
    {
      if !release.s2 {
        // The wires are sampled before the edge.
        var current := StatusWires(automaticDac, isPps, is10m, locked);
        control.ReceiverClock(controlNoise, requestNoise);
        var offer := StatusReturn.Offer(current, status.sender.mailbox);
        status.SenderClock(offer, ackNoise);
      }
      release := release.Shift(false);
    }

    method StatusWires(automaticDac: Word16, isPps: bool, is10m: bool, locked: bool) returns (current: Status)
      ensures current == Status(Contents().ActiveDac(automaticDac), isPps, is10m, locked)
    {
      var received := control.receiver.word;
      current := Status(if received.manualMode then received.manualDac else automaticDac, isPps, is10m, locked);
    }
  }

  /** Clocks the objects through a sequence of edges: where they get to is where the step functions' run gets to. */
  method Drive(controller: Controller, es: seq<VcxoControl.Edge>)
    requires controller.Valid()
    modifies controller, controller.Parts()
    ensures controller.Contents() == VcxoControl.Run(old(controller.Contents()), es)
  {
    for i := 0 to |es|
      invariant VcxoControl.Run(controller.Contents(), es[i..]) == VcxoControl.Run(old(controller.Contents()), es)
    {
      assert es[i..][1..] == es[i + 1..];
      match es[i]
      case AxiEdge(write, ackNoise, statusNoise, requestNoise) =>
        controller.AxiClock(write, ackNoise, statusNoise, requestNoise);
      case VcxoEdge(automaticDac, isPps, is10m, locked, ackNoise, controlNoise, requestNoise) =>
        controller.VcxoClock(automaticDac, isPps, is10m, locked, ackNoise, controlNoise, requestNoise);
    }
  }

  /** From power-on, in objects of one's own. */
  method RunFromPowerOn(es: seq<VcxoControl.Edge>) returns (controller: Controller)
    ensures fresh(controller) && fresh(controller.Parts()) && controller.Valid()
    ensures controller.Contents() == VcxoControl.Run(VcxoControl.PowerOn(), es)
  {
    controller := new Controller();
    Drive(controller, es);
  }
}
