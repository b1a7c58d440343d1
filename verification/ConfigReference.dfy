/**
 The settings with every name and key written out: what is loaded under which
 name, which key sets what, and the texts that are stored and exported.
 */
module ConfigReference {
  import opened Basics
  import opened BootEnvironment
  import opened BootScript
  import opened ConfigFile
  import opened ConfigValues
  import opened ConfigNames
  import opened Config
  import opened ConfigImport

  // ---------------------------------------------------------------------
  // Loading.

  function LineEnds(n: nat): string {
    seq(n, _ => '\n')
  }

  /** `value` is `text` without the line ends at its end. */
  ghost predicate IsChomped(text: string, value: string) {
    (exists n: nat :: text == value + LineEnds(n)) && (value != [] ==> value[|value| - 1] != '\n')
  }

  lemma {:induction false} ChompIsChomped(text: string)
    ensures IsChomped(text, Chomp(text))
    decreases |text|
  {
    if text != [] && text[|text| - 1] == '\n' {
      var shorter := text[..|text| - 1];
      ChompIsChomped(shorter);
      var n: nat :| shorter == Chomp(shorter) + LineEnds(n);
      assert LineEnds(n + 1) == LineEnds(n) + ['\n'];
      assert text == Chomp(shorter) + LineEnds(n + 1);
    } else {
      assert text == text + LineEnds(0);
    }
  }

  /** What is loaded for a name: what the environment has under it, or else the default. */
  ghost predicate IsLoaded(env: Environment, name: string, default: string, value: string) {
    IsChomped(if name in env then env[name] else default, value)
  }

  /** Name by name; the mode is the stored one, or `static` if there is an address, or what it was. */
  lemma LoadedByName(vars: Settings, env: Environment)
    ensures var loaded := Load(vars, env);
            && IsLoaded(env, "hostname", vars.usbHostname, loaded.usbHostname)
            && IsLoaded(env, "ipaddr", vars.usbIpaddr, loaded.usbIpaddr)
            && IsLoaded(env, "ipaddr_host", vars.usbIpaddrHost, loaded.usbIpaddrHost)
            && IsLoaded(env, "netmask", vars.usbNetmask, loaded.usbNetmask)
            && IsLoaded(env, "usb_ethernet_mode", vars.usbEthernetMode, loaded.usbEthernetMode)
            && IsLoaded(env, "ipaddr_eth", vars.networkIpaddr, loaded.networkIpaddr)
            && IsLoaded(env, "netmask_eth", vars.networkNetmask, loaded.networkNetmask)
            && IsLoaded(env, "eth_gateway", vars.networkGateway, loaded.networkGateway)
            && IsLoaded(env, "xo_correction", vars.xoCorrection, loaded.xoCorrection)
            && IsLoaded(env, "udc_handle_suspend", vars.udcHandleSuspend, loaded.udcHandleSuspend)
  {
    forall x: Variable | x != NetworkMode
      ensures IsLoaded(env, EnvName(x), vars.Get(x), LoadedValue(vars, env, x))
    {
      ChompIsChomped(if EnvName(x) in env then env[EnvName(x)] else vars.Get(x));
    }
    var loaded := Load(vars, env);
    NamesAreWritten();
    assert loaded.usbHostname == LoadedValue(vars, env, UsbHostname);
    assert loaded.usbIpaddr == LoadedValue(vars, env, UsbIpaddr);
  }

  lemma NamesAreWritten()
    ensures EnvName(UsbHostname) == "hostname" && EnvName(UsbIpaddr) == "ipaddr"
    ensures EnvName(UsbIpaddrHost) == "ipaddr_host" && EnvName(UsbNetmask) == "netmask"
    ensures EnvName(UsbEthernetMode) == "usb_ethernet_mode" && EnvName(NetworkMode) == "network_mode"
    ensures EnvName(NetworkIpaddr) == "ipaddr_eth" && EnvName(NetworkNetmask) == "netmask_eth"
    ensures EnvName(NetworkGateway) == "eth_gateway" && EnvName(XoCorrection) == "xo_correction"
    ensures EnvName(UdcHandleSuspend) == "udc_handle_suspend"
  {
  }

  /** The mode: the stored one, or `static` if an address is loaded, or what it was. */
  lemma LoadedMode(vars: Settings, env: Environment, stored: string)
    requires IsLoaded(env, "network_mode", [], stored)
    ensures var loaded := Load(vars, env);
            loaded.networkMode
            == if stored != [] then stored else if loaded.networkIpaddr != [] then "static" else vars.networkMode
  {
    NamesAreWritten();
    var text := if "network_mode" in env then env["network_mode"] else [];
    ChompIsChomped(text);
    ChompedOnce(text, stored, Chomp(text));
  }

  lemma PastValue(text: string, value: string, n: nat, i: nat)
    requires text == value + LineEnds(n) && |value| <= i < |text|
    ensures text[i] == '\n'
  {
  }

  /** There is only one way to take the line ends off. */
  lemma ChompedOnce(text: string, a: string, b: string)
    requires IsChomped(text, a) && IsChomped(text, b)
    ensures a == b
  {
    var m: nat :| text == a + LineEnds(m);
    var n: nat :| text == b + LineEnds(n);
    assert text[..|a|] == a && text[..|b|] == b;
    if |a| < |b| {
      PastValue(text, a, m, |b| - 1);
    } else if |b| < |a| {
      PastValue(text, b, n, |a| - 1);
    }
  }

  // ---------------------------------------------------------------------
  // Storing.

  function ScriptEntry(name: string, value: string): string {
    name + " " + value + "\n"
  }

  function EntryOf(x: Variable, s: Settings): string {
    ScriptEntry(EnvName(x), s.Get(x))
  }

  lemma OneEntry(xs: seq<Variable>, i: nat, s: Settings)
    requires i < |xs|
    ensures ScriptText(Bindings(xs[i..], s)) == EntryOf(xs[i], s) + ScriptText(Bindings(xs[i + 1..], s))
  {
    NextBinding(xs, i, s);
  }

  lemma TwoEntries(xs: seq<Variable>, i: nat, s: Settings)
    requires i + 2 <= |xs|
    ensures ScriptText(Bindings(xs[i..], s))
         == EntryOf(xs[i], s) + (EntryOf(xs[i + 1], s) + ScriptText(Bindings(xs[i + 2..], s)))
  {
    OneEntry(xs, i, s);
    OneEntry(xs, i + 1, s);
  }

  lemma FourEntries(xs: seq<Variable>, i: nat, s: Settings)
    requires i + 4 <= |xs|
    ensures ScriptText(Bindings(xs[i..], s))
         == EntryOf(xs[i], s) + (EntryOf(xs[i + 1], s)
            + (EntryOf(xs[i + 2], s) + (EntryOf(xs[i + 3], s) + ScriptText(Bindings(xs[i + 4..], s)))))
  {
    TwoEntries(xs, i, s);
    TwoEntries(xs, i + 2, s);
  }

  /** All eleven, as they are stored. */
  lemma AllEntries(xs: seq<Variable>, s: Settings)
    requires |xs| == 11
    ensures ScriptText(Bindings(xs, s))
         == EntryOf(xs[0], s) + (EntryOf(xs[1], s) + (EntryOf(xs[2], s) + (EntryOf(xs[3], s) + (EntryOf(xs[4], s)
            + (EntryOf(xs[5], s) + (EntryOf(xs[6], s) + (EntryOf(xs[7], s) + (EntryOf(xs[8], s) + (EntryOf(xs[9], s)
            + EntryOf(xs[10], s))))))))))
  {
    assert xs[0..] == xs;
    FourEntries(xs, 0, s);
    FourEntries(xs, 4, s);
    TwoEntries(xs, 8, s);
    LastEntry(xs, 10, s);
  }

  lemma LastEntry(xs: seq<Variable>, i: nat, s: Settings)
    requires i + 1 == |xs|
    ensures ScriptText(Bindings(xs[i..], s)) == EntryOf(xs[i], s)
  {
    OneEntry(xs, i, s);
    assert xs[i + 1..] == [] && Bindings([], s) == [] && ScriptText([]) == [];
  }

  lemma EntriesAreWritten(s: Settings)
    ensures EntryOf(UsbHostname, s) == ScriptEntry("hostname", s.usbHostname)
    ensures EntryOf(UsbIpaddr, s) == ScriptEntry("ipaddr", s.usbIpaddr)
    ensures EntryOf(UsbIpaddrHost, s) == ScriptEntry("ipaddr_host", s.usbIpaddrHost)
    ensures EntryOf(UsbNetmask, s) == ScriptEntry("netmask", s.usbNetmask)
    ensures EntryOf(UsbEthernetMode, s) == ScriptEntry("usb_ethernet_mode", s.usbEthernetMode)
    ensures EntryOf(NetworkMode, s) == ScriptEntry("network_mode", s.networkMode)
    ensures EntryOf(NetworkIpaddr, s) == ScriptEntry("ipaddr_eth", s.networkIpaddr)
    ensures EntryOf(NetworkNetmask, s) == ScriptEntry("netmask_eth", s.networkNetmask)
    ensures EntryOf(NetworkGateway, s) == ScriptEntry("eth_gateway", s.networkGateway)
    ensures EntryOf(XoCorrection, s) == ScriptEntry("xo_correction", s.xoCorrection)
    ensures EntryOf(UdcHandleSuspend, s) == ScriptEntry("udc_handle_suspend", s.udcHandleSuspend)
  {
  }

  /** The script for `fw_setenv`, line by line. */
  lemma ScriptIsWritten(s: Settings)
    ensures StoreScript(s)
         == ScriptEntry("hostname", s.usbHostname) + (ScriptEntry("ipaddr", s.usbIpaddr)
            + (ScriptEntry("ipaddr_host", s.usbIpaddrHost) + (ScriptEntry("netmask", s.usbNetmask)
            + (ScriptEntry("usb_ethernet_mode", s.usbEthernetMode) + (ScriptEntry("network_mode", s.networkMode)
            + (ScriptEntry("ipaddr_eth", s.networkIpaddr) + (ScriptEntry("netmask_eth", s.networkNetmask)
            + (ScriptEntry("eth_gateway", s.networkGateway) + (ScriptEntry("xo_correction", s.xoCorrection)
            + ScriptEntry("udc_handle_suspend", s.udcHandleSuspend))))))))))
  {
    AllEntries(AllVariables(), s);
    EntriesAreWritten(s);
  }

  // ---------------------------------------------------------------------
  // The keys of the file.

  /** Which section and key set which variable: these fourteen and no others. */
  lemma KeysAreWritten(section: string, key: string, x: Variable)
    ensures Meaning(section, key) == Some(Shell(x)) <==> (section, key, x) in {
              ("USB_ETHERNET", "hostname", UsbHostname), ("USB_ETHERNET", "ipaddr", UsbIpaddr),
              ("USB_ETHERNET", "ipaddr_host", UsbIpaddrHost), ("USB_ETHERNET", "netmask", UsbNetmask),
              ("USB_ETHERNET", "usb_ethernet_mode", UsbEthernetMode),
              ("NETWORK", "mode", NetworkMode), ("NETWORK", "ipaddr", NetworkIpaddr),
              ("NETWORK", "ipaddr_eth", NetworkIpaddr), ("NETWORK", "netmask", NetworkNetmask),
              ("NETWORK", "netmask_eth", NetworkNetmask), ("NETWORK", "gateway", NetworkGateway),
              ("NETWORK", "eth_gateway", NetworkGateway),
              ("SYSTEM", "xo_correction", XoCorrection), ("SYSTEM", "udc_handle_suspend", UdcHandleSuspend)
            }
    ensures Meaning(section, key) == Some(DiagnosticReport) <==> section == "ACTIONS" && key == "diagnostic_report"
  {
  }

  // ---------------------------------------------------------------------
  // The exported file.

  function FileEntry(key: string, value: string): string {
    key + " = " + value + "\n"
  }

  function CommentLines(comments: seq<string>): string {
    if comments == [] then [] else comments[0] + "\n" + CommentLines(comments[1..])
  }

  lemma RenderedFirst(c: Chunk, cs: seq<Chunk>)
    ensures RenderedAll([c] + cs) == Rendered(c) + RenderedAll(cs)
  {
    var texts := seq(|[c] + cs|, i requires 0 <= i < |[c] + cs| => Rendered(([c] + cs)[i]));
    assert texts[1..] == seq(|cs|, i requires 0 <= i < |cs| => Rendered(cs[i]));
  }

  lemma NoChunks()
    ensures RenderedAll([]) == []
  {
  }

  lemma {:induction false} CommentsFirst(comments: seq<string>, cs: seq<Chunk>)
    ensures RenderedAll(Notes(comments) + cs) == CommentLines(comments) + RenderedAll(cs)
    decreases |comments|
  {
    if comments == [] {
      assert Notes(comments) + cs == cs;
    } else {
      var rest := comments[1..];
      assert Notes(comments) == [Note(comments[0])] + Notes(rest);
      assert Notes(comments) + cs == [Note(comments[0])] + (Notes(rest) + cs);
      RenderedFirst(Note(comments[0]), Notes(rest) + cs);
      CommentsFirst(rest, cs);
      assert Rendered(Note(comments[0])) == comments[0] + "\n";
    }
  }

  /** A section begins with a blank line and its name in brackets. */
  lemma BlockFirst(section: string, entries: seq<(string, string)>, cs: seq<Chunk>)
    ensures RenderedAll(BlockChunks(Block(section, entries)) + cs)
         == "\n" + ("[" + section + "]\n" + RenderedAll(Entries(entries) + cs))
  {
    var chunks := Entries(entries) + cs;
    assert BlockChunks(Block(section, entries)) + cs == [Note("")] + ([Heading(section)] + chunks);
    RenderedFirst(Note(""), [Heading(section)] + chunks);
    RenderedFirst(Heading(section), chunks);
    assert Rendered(Note("")) == "\n" && Rendered(Heading(section)) == "[" + section + "]\n";
  }

  lemma EntryFirst(entries: seq<(string, string)>, i: nat, cs: seq<Chunk>, key: string, value: string)
    requires i < |entries| && entries[i] == (key, value)
    ensures RenderedAll(Entries(entries[i..]) + cs) == FileEntry(key, value) + RenderedAll(Entries(entries[i + 1..]) + cs)
  {
    assert Entries(entries[i..]) == [Entry(key, value)] + Entries(entries[i + 1..]);
    assert Entries(entries[i..]) + cs == [Entry(key, value)] + (Entries(entries[i + 1..]) + cs);
    RenderedFirst(Entry(key, value), Entries(entries[i + 1..]) + cs);
    assert Rendered(Entry(key, value)) == FileEntry(key, value);
  }

  lemma EntriesEnd(entries: seq<(string, string)>, n: nat, cs: seq<Chunk>)
    requires n == |entries|
    ensures Entries(entries[n..]) + cs == cs
  {
  }

  lemma UsbSection(entries: seq<(string, string)>, s: Settings, cs: seq<Chunk>)
    requires entries == [("hostname", s.usbHostname), ("ipaddr", s.usbIpaddr), ("ipaddr_host", s.usbIpaddrHost),
                         ("netmask", s.usbNetmask), ("usb_ethernet_mode", s.usbEthernetMode)]
    ensures RenderedAll(Entries(entries[0..]) + cs)
         == FileEntry("hostname", s.usbHostname) + (FileEntry("ipaddr", s.usbIpaddr)
            + (FileEntry("ipaddr_host", s.usbIpaddrHost) + (FileEntry("netmask", s.usbNetmask)
            + (FileEntry("usb_ethernet_mode", s.usbEthernetMode) + RenderedAll(cs)))))
  {
    EntryFirst(entries, 0, cs, "hostname", s.usbHostname);
    EntryFirst(entries, 1, cs, "ipaddr", s.usbIpaddr);
    EntryFirst(entries, 2, cs, "ipaddr_host", s.usbIpaddrHost);
    EntryFirst(entries, 3, cs, "netmask", s.usbNetmask);
    EntryFirst(entries, 4, cs, "usb_ethernet_mode", s.usbEthernetMode);
    EntriesEnd(entries, 5, cs);
  }

  lemma NetworkSection(entries: seq<(string, string)>, s: Settings, cs: seq<Chunk>)
    requires entries == [("mode", s.networkMode), ("ipaddr_eth", s.networkIpaddr),
                         ("netmask_eth", s.networkNetmask), ("eth_gateway", s.networkGateway)]
    ensures RenderedAll(Entries(entries[0..]) + cs)
         == FileEntry("mode", s.networkMode) + (FileEntry("ipaddr_eth", s.networkIpaddr)
            + (FileEntry("netmask_eth", s.networkNetmask) + (FileEntry("eth_gateway", s.networkGateway)
            + RenderedAll(cs))))
  {
    EntryFirst(entries, 0, cs, "mode", s.networkMode);
    EntryFirst(entries, 1, cs, "ipaddr_eth", s.networkIpaddr);
    EntryFirst(entries, 2, cs, "netmask_eth", s.networkNetmask);
    EntryFirst(entries, 3, cs, "eth_gateway", s.networkGateway);
    EntriesEnd(entries, 4, cs);
  }

  lemma SystemSection(entries: seq<(string, string)>, s: Settings, cs: seq<Chunk>)
    requires entries == [("xo_correction", s.xoCorrection), ("udc_handle_suspend", s.udcHandleSuspend)]
    ensures RenderedAll(Entries(entries[0..]) + cs)
         == FileEntry("xo_correction", s.xoCorrection)
            + (FileEntry("udc_handle_suspend", s.udcHandleSuspend) + RenderedAll(cs))
  {
    EntryFirst(entries, 0, cs, "xo_correction", s.xoCorrection);
    EntryFirst(entries, 1, cs, "udc_handle_suspend", s.udcHandleSuspend);
    EntriesEnd(entries, 2, cs);
  }

  lemma ActionsSection(entries: seq<(string, string)>, cs: seq<Chunk>)
    requires entries == [("diagnostic_report", "0")]
    ensures RenderedAll(Entries(entries[0..]) + cs) == FileEntry("diagnostic_report", "0") + RenderedAll(cs)
  {
    EntryFirst(entries, 0, cs, "diagnostic_report", "0");
    EntriesEnd(entries, 1, cs);
  }

  lemma PairsAreWritten(s: Settings)
    ensures Pairs(UsbVariables(), s)
         == [("hostname", s.usbHostname), ("ipaddr", s.usbIpaddr), ("ipaddr_host", s.usbIpaddrHost),
             ("netmask", s.usbNetmask), ("usb_ethernet_mode", s.usbEthernetMode)]
    ensures Pairs(NetworkVariables(), s)
         == [("mode", s.networkMode), ("ipaddr_eth", s.networkIpaddr),
             ("netmask_eth", s.networkNetmask), ("eth_gateway", s.networkGateway)]
    ensures Pairs(SystemVariables(), s)
         == [("xo_correction", s.xoCorrection), ("udc_handle_suspend", s.udcHandleSuspend)]
  {
  }

  function UsbText(s: Settings, rest: string): string {
    "\n" + ("[USB_ETHERNET]\n"
      + (FileEntry("hostname", s.usbHostname) + (FileEntry("ipaddr", s.usbIpaddr)
      + (FileEntry("ipaddr_host", s.usbIpaddrHost) + (FileEntry("netmask", s.usbNetmask)
      + (FileEntry("usb_ethernet_mode", s.usbEthernetMode) + rest))))))
  }

  function NetworkText(s: Settings, rest: string): string {
    "\n" + ("[NETWORK]\n"
      + (FileEntry("mode", s.networkMode) + (FileEntry("ipaddr_eth", s.networkIpaddr)
      + (FileEntry("netmask_eth", s.networkNetmask) + (FileEntry("eth_gateway", s.networkGateway) + rest)))))
  }

  function SystemText(s: Settings, rest: string): string {
    "\n" + ("[SYSTEM]\n"
      + (FileEntry("xo_correction", s.xoCorrection) + (FileEntry("udc_handle_suspend", s.udcHandleSuspend) + rest)))
  }

  function ActionsText(): string {
    "\n" + ("[ACTIONS]\n" + FileEntry("diagnostic_report", "0"))
  }

  lemma UsbBlockText(entries: seq<(string, string)>, s: Settings, cs: seq<Chunk>)
    requires entries == Pairs(UsbVariables(), s)
    ensures RenderedAll(BlockChunks(Block("USB_ETHERNET", entries)) + cs) == UsbText(s, RenderedAll(cs))
  {
    PairsAreWritten(s);
    BlockFirst("USB_ETHERNET", entries, cs);
    UsbSection(entries, s, cs);
    assert entries[0..] == entries;
  }

  lemma NetworkBlockText(entries: seq<(string, string)>, s: Settings, cs: seq<Chunk>)
    requires entries == Pairs(NetworkVariables(), s)
    ensures RenderedAll(BlockChunks(Block("NETWORK", entries)) + cs) == NetworkText(s, RenderedAll(cs))
  {
    PairsAreWritten(s);
    BlockFirst("NETWORK", entries, cs);
    NetworkSection(entries, s, cs);
    assert entries[0..] == entries;
  }

  lemma SystemBlockText(entries: seq<(string, string)>, s: Settings, cs: seq<Chunk>)
    requires entries == Pairs(SystemVariables(), s)
    ensures RenderedAll(BlockChunks(Block("SYSTEM", entries)) + cs) == SystemText(s, RenderedAll(cs))
  {
    PairsAreWritten(s);
    BlockFirst("SYSTEM", entries, cs);
    SystemSection(entries, s, cs);
    assert entries[0..] == entries;
  }

  lemma ActionsBlockText(entries: seq<(string, string)>)
    requires entries == [("diagnostic_report", "0")]
    ensures RenderedAll(BlockChunks(Block("ACTIONS", entries)) + []) == ActionsText()
  {
    BlockFirst("ACTIONS", entries, []);
    ActionsSection(entries, []);
    NoChunks();
    assert entries[0..] == entries;
    assert FileEntry("diagnostic_report", "0") + [] == FileEntry("diagnostic_report", "0");
  }

  lemma FourBlockChunks(bs: seq<Block>)
    requires |bs| == 4
    ensures BlocksChunks(bs)
         == BlockChunks(bs[0]) + (BlockChunks(bs[1]) + (BlockChunks(bs[2]) + (BlockChunks(bs[3]) + [])))
  {
    assert bs[1..][1..] == bs[2..] && bs[2..][1..] == bs[3..] && bs[3..][1..] == [];
    assert BlocksChunks([]) == [];
    assert BlocksChunks(bs[3..]) == BlockChunks(bs[3]) + [];
    assert BlocksChunks(bs[2..]) == BlockChunks(bs[2]) + BlocksChunks(bs[3..]);
    assert BlocksChunks(bs[1..]) == BlockChunks(bs[1]) + BlocksChunks(bs[2..]);
  }

  /** The exported file, line by line. */
  lemma ExportIsWritten(comments: seq<string>, s: Settings)
    ensures ExportText(comments, s)
         == CommentLines(comments) + UsbText(s, NetworkText(s, SystemText(s, ActionsText())))
  {
    var bs := ExportBlocks(s);
    CommentsFirst(comments, BlocksChunks(bs));
    FourBlockChunks(bs);
    var actions := BlockChunks(bs[3]) + [];
    var system := BlockChunks(bs[2]) + actions;
    var network := BlockChunks(bs[1]) + system;
    ActionsBlockText(bs[3].entries);
    SystemBlockText(bs[2].entries, s, actions);
    NetworkBlockText(bs[1].entries, s, system);
    UsbBlockText(bs[0].entries, s, network);
  }
}
