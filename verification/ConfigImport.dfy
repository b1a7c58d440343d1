/** Importing a configuration file: what it sets, that an export undoes it, and that twice is once. */
module ConfigImport {
  import opened Basics
  import opened BootEnvironment
  import opened Text
  import opened ConfigFile
  import opened ConfigValues
  import opened ConfigNames
  import opened Config

  /** The shell variables during an import. */
  datatype Loaded = Loaded(values: Settings, report: string)

  function AssignOne(l: Loaded, t: Setting): Loaded {
    match Meaning(t.section, t.key)
    case None => l
    case Some(DiagnosticReport) => l.(report := t.value)
    case Some(Shell(x)) => l.(values := l.values.With(x, t.value))
  }

  /** The variables after the settings in order. */
  function Assign(l: Loaded, ts: seq<Setting>): Loaded {
    if ts == [] then l else AssignOne(Assign(l, ts[..|ts| - 1]), ts[|ts| - 1])
  }

  datatype ConfigError = InvalidValue | InvalidReport | UnknownEnvironment

  /** What an import starts from. */
  function Begun(vars: Settings, env: Environment): Loaded {
    Loaded(Load(vars, env), "0")
  }

  function Settled(vars: Settings, env: Environment, text: string): Loaded {
    Assign(Begun(vars, env), Parse(IsAllowed, text))
  }

  /** Why an import of these values is refused, if it is. */
  function Refusal(l: Loaded, env: Environment): Option<ConfigError> {
    if !Valid(l.values) then Some(InvalidValue)
    else if l.report !in {"0", "1"} then Some(InvalidReport)
    else if "qspiboot" !in env then Some(UnknownEnvironment)
    else None
  }

  function Import(vars: Settings, env: Environment, text: string, keeps: bool): Result<Environment, ConfigError> {
    var l := Settled(vars, env, text);
    Finished(Refusal(l, env), l.values, env, keeps)
  }

  function Finished(refusal: Option<ConfigError>, values: Settings, env: Environment, keeps: bool)
    : Result<Environment, ConfigError>
  {
    match refusal
    case Some(e) => Err(e)
    case None => Ok(Store(env, values, keeps))
  }

  // ---------------------------------------------------------------------
  // The last setting wins.

  /** The last value given to a target, by whatever key. */
  function LastFor(target: Target, ts: seq<Setting>): Option<string> {
    if ts == [] then None
    else
      var last := ts[|ts| - 1];
      if Meaning(last.section, last.key) == Some(target) then Some(last.value) else LastFor(target, ts[..|ts| - 1])
  }

  function Or(value: Option<string>, default: string): string {
    if value.Some? then value.value else default
  }

  lemma {:induction false} LastSettingWins(l: Loaded, ts: seq<Setting>, x: Variable)
    ensures Assign(l, ts).values.Get(x) == Or(LastFor(Shell(x), ts), l.values.Get(x))
    ensures Assign(l, ts).report == Or(LastFor(DiagnosticReport, ts), l.report)
    decreases |ts|
  {
    if ts != [] {
      LastSettingWins(l, ts[..|ts| - 1], x);
    }
  }

  // ---------------------------------------------------------------------
  // Valid values are read back.

  lemma {:induction false} DotsBetweenDigits(text: string)
    requires forall i :: 0 <= i < |SplitDots(text)| ==> AllDigits(SplitDots(text)[i])
    ensures forall i :: 0 <= i < |text| ==> IsDigit(text[i]) || text[i] == '.'
    decreases |text|
  {
    var dot, fields := IndexOf(text, '.'), SplitDots(text);
    assert AllDigits(fields[0]);
    if dot < |text| {
      var rest := text[dot + 1..];
      assert fields[1..] == SplitDots(rest);
      forall i | 0 <= i < |SplitDots(rest)|
        ensures AllDigits(SplitDots(rest)[i])
      {
        assert SplitDots(rest)[i] == fields[i + 1];
      }
      DotsBetweenDigits(rest);
      forall i | 0 <= i < |text|
        ensures IsDigit(text[i]) || text[i] == '.'
      {
        if i < dot {
          assert text[i] == fields[0][i];
        } else if dot < i {
          assert text[i] == rest[i - dot - 1];
        }
      }
    }
  }

  lemma QuadIsDotted(record: string)
    requires IsQuad(record)
    ensures IsDotted(record)
  {
    DotsBetweenDigits(record);
  }

  lemma MaskIsDotted(record: string)
    requires IsMask(record)
    ensures IsDotted(record)
  {
    var p := PrefixOfMask(Fields(record), false);
    DotsBetweenDigits(record);
  }

  lemma AddressIsExportable(value: string)
    requires ValidIpv4(value)
    ensures IsExportable(value)
  {
    forall i | 0 <= i < |Records(value)|
      ensures IsDotted(Records(value)[i])
    {
      QuadIsDotted(Records(value)[i]);
    }
  }

  lemma NetmaskIsExportable(value: string)
    requires ValidNetmask(value)
    ensures value != [] && IsExportable(value)
  {
    forall i | 0 <= i < |Records(value)|
      ensures IsDotted(Records(value)[i])
    {
      EachIsMask(Records(value), i);
      MaskIsDotted(Records(value)[i]);
    }
    FirstOfRecords(value);
  }

  predicate IsWord(value: string) {
    forall i :: 0 <= i < |value| ==> IsHostnameChar(value[i])
  }

  lemma WordIsExportable(value: string)
    requires IsWord(value)
    ensures IsExportable(value)
  {
  }

  lemma ChoicesAreWords(value: string)
    requires value in {"rndis", "ncm", "ecm"} || value in {"dhcp", "static"} || value in {"0", "1"}
    ensures value != [] && IsWord(value)
  {
  }

  /** Values that the check lets through, without the other variables. */
  predicate ValidValue(x: Variable, value: string) {
    match x
    case UsbHostname => ValidHostname(value)
    case UsbIpaddr => ValidIpv4(value)
    case UsbIpaddrHost => ValidIpv4(value)
    case UsbNetmask => ValidNetmask(value)
    case UsbEthernetMode => value in {"rndis", "ncm", "ecm"}
    case NetworkMode => value in {"dhcp", "static"}
    case NetworkIpaddr => ValidOptionalIpv4(value)
    case NetworkNetmask => ValidNetmask(value)
    case NetworkGateway => ValidOptionalIpv4(value)
    case XoCorrection => AllDigits(value)
    case UdcHandleSuspend => value in {"0", "1"}
  }

  predicate MayBeEmpty(x: Variable) {
    x == NetworkIpaddr || x == NetworkGateway || x == XoCorrection
  }

  lemma ValidHasValid(s: Settings, x: Variable)
    requires Valid(s)
    ensures ValidValue(x, s.Get(x))
  {
  }

  lemma EachValidIsValid(s: Settings)
    requires forall x: Variable :: ValidValue(x, s.Get(x))
    requires s.networkMode == "static" ==> s.networkIpaddr != []
    ensures Valid(s)
  {
    assert ValidValue(UsbHostname, s.Get(UsbHostname));
    assert ValidValue(UsbIpaddr, s.Get(UsbIpaddr));
    assert ValidValue(UsbIpaddrHost, s.Get(UsbIpaddrHost));
    assert ValidValue(UsbNetmask, s.Get(UsbNetmask));
    assert ValidValue(UsbEthernetMode, s.Get(UsbEthernetMode));
    assert ValidValue(NetworkMode, s.Get(NetworkMode));
    assert ValidValue(NetworkIpaddr, s.Get(NetworkIpaddr));
    assert ValidValue(NetworkNetmask, s.Get(NetworkNetmask));
    assert ValidValue(NetworkGateway, s.Get(NetworkGateway));
    assert ValidValue(XoCorrection, s.Get(XoCorrection));
    assert ValidValue(UdcHandleSuspend, s.Get(UdcHandleSuspend));
  }

  lemma ValidIsEachValid(s: Settings)
    ensures Valid(s)
       <==> (forall x: Variable :: ValidValue(x, s.Get(x))) && (s.networkMode == "static" ==> s.networkIpaddr != [])
  {
    if Valid(s) {
      forall x: Variable
        ensures ValidValue(x, s.Get(x))
      {
        ValidHasValid(s, x);
      }
    } else if (forall x: Variable :: ValidValue(x, s.Get(x))) && (s.networkMode == "static" ==> s.networkIpaddr != []) {
      EachValidIsValid(s);
    }
  }

  lemma ValidIsExportable(x: Variable, value: string)
    requires ValidValue(x, value)
    ensures IsExportable(value) && (value == [] ==> MayBeEmpty(x))
  {
    match x
    case UsbHostname => WordIsExportable(value);
    case UsbIpaddr => AddressIsExportable(value);
    case UsbIpaddrHost => AddressIsExportable(value);
    case UsbNetmask => NetmaskIsExportable(value);
    case UsbEthernetMode => ChoicesAreWords(value); WordIsExportable(value);
    case NetworkMode => ChoicesAreWords(value); WordIsExportable(value);
    case NetworkIpaddr => OptionalIsExportable(value);
    case NetworkNetmask => NetmaskIsExportable(value);
    case NetworkGateway => OptionalIsExportable(value);
    case XoCorrection => WordIsExportable(value);
    case UdcHandleSuspend => ChoicesAreWords(value); WordIsExportable(value);
  }

  lemma OptionalIsExportable(value: string)
    requires ValidOptionalIpv4(value)
    ensures IsExportable(value)
  {
    if value != [] {
      AddressIsExportable(value);
    }
  }

  lemma TerminatedIsNotExportable(value: string)
    requires IsTerminated(value)
    ensures !IsExportable(value)
  {
    LinesConcat(value, "\n");
    EmptyLine();
    var last := |Lines(value)|;
    assert Records(value)[last] == "" && !IsDotted(Records(value)[last]);
    assert value[|value| - 1] == '\n';
  }

  /** An exportable value has no line end at its end, so loading leaves it alone. */
  lemma ExportableIsChomped(value: string)
    requires IsExportable(value)
    ensures Chomp(value) == value
  {
    if IsTerminated(value) {
      TerminatedIsNotExportable(value);
    }
  }

  lemma EmptyLine()
    ensures Lines("\n") == [""]
  {
    SingleLine("");
    assert Terminated("") == "\n";
  }

  /** Variables that may be empty are empty by default: an address, a gateway, a correction. */
  predicate OptionalsAreEmpty(vars: Settings) {
    vars.networkIpaddr == [] && vars.networkGateway == [] && vars.xoCorrection == []
  }

  lemma ValidAreExportable(s: Settings)
    requires Valid(s)
    ensures AllExportable(s)
  {
    ValidIsEachValid(s);
    forall x: Variable
      ensures IsExportable(s.Get(x))
    {
      ValidIsExportable(x, s.Get(x));
    }
  }

  /**
   Valid settings that were stored are loaded cut at their first line ends,
   whatever the environment held before.
   */
  lemma StoredFirstLines(vars: Settings, env: Environment, s: Settings, keeps: bool)
    requires Valid(s) && OptionalsAreEmpty(vars)
    ensures Load(vars, Store(env, s, keeps)) == FirstLines(s)
  {
    var after := Store(env, s, keeps);
    ValidIsEachValid(s);
    ValidAreExportable(s);
    forall x: Variable
      ensures Load(vars, after).Get(x) == FirstLines(s).Get(x)
    {
      StoredSettings(env, s, keeps, x);
      StoredValueIsLoaded(vars, after, keeps, x, s.Get(x));
      LoadedGet(vars, after, x);
      FirstLinesGet(s, x);
    }
    SameSettings(Load(vars, after), FirstLines(s));
  }

  lemma LoadedGet(vars: Settings, env: Environment, x: Variable)
    ensures Load(vars, env).Get(x) == LoadedValue(vars, env, x)
  {
  }

  lemma StoredValueIsLoaded(vars: Settings, after: Environment, keeps: bool, x: Variable, value: string)
    requires OptionalsAreEmpty(vars) && ValidValue(x, value)
    requires Lookup(after, EnvName(x)) == Kept(FirstLine(value), keeps)
    ensures LoadedValue(vars, after, x) == FirstLine(value)
  {
    FirstLineIsValid(x, value);
    ValidIsExportable(x, FirstLine(value));
    ExportableIsChomped(FirstLine(value));
    assert Chomp([]) == [];
  }

  predicate IsSingleLine(value: string) {
    '\n' !in value
  }

  ghost predicate AreSingleLines(s: Settings) {
    forall x: Variable :: IsSingleLine(s.Get(x))
  }

  /** So they are what is loaded exactly when no value has a line end. */
  lemma StoredIsLoaded(vars: Settings, env: Environment, s: Settings, keeps: bool)
    requires Valid(s) && OptionalsAreEmpty(vars)
    ensures Load(vars, Store(env, s, keeps)) == s <==> AreSingleLines(s)
  {
    StoredFirstLines(vars, env, s, keeps);
    SameFirstLines(s);
  }

  // ---------------------------------------------------------------------
  // Twice is once.

  lemma {:induction false} ParsedIsSingleLine(allowed: Allowed, section: string, lines: seq<Line>, t: Setting)
    requires forall i :: 0 <= i < |lines| && lines[i].Assigning? ==> IsSingleLine(lines[i].value)
    requires t in SettingsMade(allowed, section, lines)
    ensures IsSingleLine(t.value)
    decreases |lines|
  {
    if t !in SettingOf(allowed, section, lines[0]) {
      ParsedIsSingleLine(allowed, SectionAfter(section, lines[0]), lines[1..], t);
    }
  }

  lemma LineIsSingleLine(text: string)
    requires '\n' !in text
    ensures var line := LineOf(text);
            line.Assigning? ==> IsSingleLine(line.value)
  {
    TrimAddsNothing(text);
    var line := Trim(text);
    var separator := IndexOf(line, '=');
    if separator < |line| {
      TrimAddsNothing(line[separator + 1..]);
    }
  }

  lemma TrimAddsNothing(text: string)
    requires '\n' !in text
    ensures '\n' !in Trim(text)
  {
    TrimStartAddsNothing(IsSpace, DropReturn(text), '\n');
    TrimEndAddsNothing(IsSpace, TrimStart(IsSpace, DropReturn(text)), '\n');
  }

  /** No value from a file has a line end. */
  lemma FileIsSingleLine(text: string, t: Setting)
    requires t in Parse(IsAllowed, text)
    ensures IsSingleLine(t.value)
  {
    var lines := Lines(text);
    LinesAreSingle(text);
    forall i | 0 <= i < |lines|
      ensures Classified(lines)[i].Assigning? ==> IsSingleLine(Classified(lines)[i].value)
    {
      LineIsSingleLine(lines[i]);
    }
    ParsedIsSingleLine(IsAllowed, "", Classified(lines), t);
  }

  lemma {:induction false} LastIsAmong(target: Target, ts: seq<Setting>)
    ensures LastFor(target, ts).Some? ==> exists t :: t in ts && t.value == LastFor(target, ts).value
    decreases |ts|
  {
    if ts != [] {
      var last := ts[|ts| - 1];
      assert last in ts;
      LastIsAmong(target, ts[..|ts| - 1]);
    }
  }

  /** Assigning a file's settings to the first lines of what they led to gives those first lines. */
  lemma AssignFirstLines(l: Loaded, ts: seq<Setting>)
    requires forall t :: t in ts ==> IsSingleLine(t.value)
    ensures var once := Assign(l, ts);
            Assign(Loaded(FirstLines(once.values), l.report), ts) == Loaded(FirstLines(once.values), once.report)
  {
    var once := Assign(l, ts);
    var again := Loaded(FirstLines(once.values), l.report);
    var twice := Assign(again, ts);
    forall x: Variable
      ensures twice.values.Get(x) == FirstLines(once.values).Get(x)
    {
      LastSettingWins(l, ts, x);
      LastSettingWins(again, ts, x);
      FirstLinesGet(once.values, x);
      LastIsAmong(Shell(x), ts);
      FirstLineOfSingle(once.values.Get(x));
    }
    LastSettingWins(l, ts, UsbHostname);
    LastSettingWins(again, ts, UsbHostname);
    SameSettings(twice.values, FirstLines(once.values));
  }

  /** Importing an accepted file again is accepted again and changes nothing. */
  lemma ImportTwice(vars: Settings, env: Environment, text: string, keeps: bool)
    requires OptionalsAreEmpty(vars)
    ensures var once := Import(vars, env, text, keeps);
            once.Ok? ==> Import(vars, once.value, text, keeps) == once
  {
    if Import(vars, env, text, keeps).Ok? {
      var first := Settled(vars, env, text);
      SettledAgain(vars, env, text, keeps);
      StoredAgain(env, first.values, keeps);
      BootNameStays(env, first.values, keeps, "qspiboot");
    }
  }

  lemma SettledAgain(vars: Settings, env: Environment, text: string, keeps: bool)
    requires OptionalsAreEmpty(vars) && Valid(Settled(vars, env, text).values)
    ensures var first := Settled(vars, env, text);
            Settled(vars, Store(env, first.values, keeps), text) == Loaded(FirstLines(first.values), first.report)
  {
    var first, ts := Settled(vars, env, text), Parse(IsAllowed, text);
    StoredFirstLines(vars, env, first.values, keeps);
    forall t | t in ts
      ensures IsSingleLine(t.value)
    {
      FileIsSingleLine(text, t);
    }
    AssignFirstLines(Loaded(Load(vars, env), "0"), ts);
  }

  lemma StoredAgain(env: Environment, s: Settings, keeps: bool)
    requires Valid(s)
    ensures Valid(FirstLines(s)) && Store(Store(env, s, keeps), FirstLines(s), keeps) == Store(env, s, keeps)
  {
    FirstLinesAreValid(s);
    ValidAreExportable(s);
    ValidAreExportable(FirstLines(s));
    StoreTwice(env, s, keeps);
  }

  /** The name that marks a boot environment is not one of the settings, nor digits and dots. */
  lemma BootNameStays(env: Environment, s: Settings, keeps: bool, name: string)
    requires Valid(s) && name == "qspiboot"
    ensures name in Store(env, s, keeps) <==> name in env
  {
    ValidAreExportable(s);
    BootNameIsNoSetting(name);
    NameStays(env, s, keeps, name);
  }

  lemma BootNameIsNoSetting(name: string)
    requires name == "qspiboot"
    ensures IsKey(name) && forall x: Variable :: EnvName(x) != name
  {
    forall x: Variable
      ensures EnvName(x) != name
    {
      EnvNamesDiffer(x, x);
    }
  }

  lemma NameStays(env: Environment, s: Settings, keeps: bool, name: string)
    requires AllExportable(s) && IsKey(name) && forall x: Variable :: EnvName(x) != name
    ensures Lookup(Store(env, s, keeps), name) == Lookup(env, name)
  {
    if IsSpilledName(name, s) {
      SpilledIsDotted(name, s);
      KeyIsNotDotted(name);
    }
    StoredOthers(env, s, keeps, name);
  }

  /**
   An accepted import leaves valid settings, and every name outside the eleven
   as it was, except that a name which is a further line of a value loses its
   own.
   */
  lemma ImportKeepsTheRest(vars: Settings, env: Environment, text: string, keeps: bool, name: string)
    requires OptionalsAreEmpty(vars)
    ensures var after := Import(vars, env, text, keeps);
            after.Ok? ==>
              && Valid(Load(vars, after.value))
              && (!IsSettingName(name) ==>
                    Lookup(after.value, name)
                    == if IsSpilledName(name, Settled(vars, env, text).values) then Kept([], keeps) else Lookup(env, name))
  {
    if Import(vars, env, text, keeps).Ok? {
      var s := Settled(vars, env, text).values;
      StoredFirstLines(vars, env, s, keeps);
      FirstLinesAreValid(s);
      ValidAreExportable(s);
      if !IsSettingName(name) {
        StoredOthers(env, s, keeps, name);
      }
    }
  }

  // ---------------------------------------------------------------------
  // The exported file.

  function Pairs(xs: seq<Variable>, s: Settings): seq<(string, string)> {
    seq(|xs|, i requires 0 <= i < |xs| => (KeyName(xs[i]), s.Get(xs[i])))
  }

  /** The sections of an exported file. */
  function ExportBlocks(s: Settings): seq<Block> {
    [Block("USB_ETHERNET", Pairs(UsbVariables(), s)), Block("NETWORK", Pairs(NetworkVariables(), s)),
     Block("SYSTEM", Pairs(SystemVariables(), s)), Block("ACTIONS", [("diagnostic_report", "0")])]
  }

  function ExportText(comments: seq<string>, s: Settings): string {
    FileText(comments, ExportBlocks(s))
  }

  /** What an export says of a variable. */
  function ExportedSetting(x: Variable, s: Settings): Setting {
    Setting(SectionName(x), KeyName(x), FirstLine(s.Get(x)))
  }

  /** The block holds what `s` says: nothing else for a variable, and no other report than `0`. */
  predicate IsFaithful(t: Setting, s: Settings) {
    match Meaning(t.section, t.key)
    case None => true
    case Some(DiagnosticReport) => t.value == "0"
    case Some(Shell(x)) => t.value == FirstLine(s.Get(x))
  }

  lemma VariablesBlock(b: Block, section: string, xs: seq<Variable>, s: Settings)
    requires b == Block(section, Pairs(xs, s)) && forall i :: 0 <= i < |xs| ==> SectionName(xs[i]) == section
    requires IsSectionName(section) && forall x: Variable :: ValidValue(x, s.Get(x))
    ensures IsBlock(IsAllowed, b) && AreFaithful(BlockSettings(b), s)
    ensures forall x :: x in xs ==> ExportedSetting(x, s) in BlockSettings(b)
  {
    forall i | 0 <= i < |xs|
      ensures IsKey(KeyName(xs[i])) && IsExportable(s.Get(xs[i])) && IsAllowed(section, KeyName(xs[i]))
      ensures BlockSettings(b)[i] == ExportedSetting(xs[i], s)
      ensures IsFaithful(BlockSettings(b)[i], s)
    {
      KeysAreKeys(xs[i]);
      ValidIsExportable(xs[i], s.Get(xs[i]));
      ExportedKeyIsMeant(xs[i]);
      AllowedIsMeant(section, KeyName(xs[i]));
    }
  }

  lemma KeysAreKeys(x: Variable)
    ensures IsKey(KeyName(x))
  {
  }

  lemma ActionsBlock(b: Block, section: string, key: string, s: Settings)
    requires IsSectionName(section) && IsKey(key) && Meaning(section, key) == Some(DiagnosticReport)
    requires b == Block(section, [(key, "0")])
    ensures IsBlock(IsAllowed, b) && AreFaithful(BlockSettings(b), s)
  {
    AllowedIsMeant(section, key);
    assert FirstLine("0") == "0";
  }

  predicate AreFaithful(ts: seq<Setting>, s: Settings) {
    forall t :: t in ts ==> IsFaithful(t, s)
  }

  lemma {:induction false} FaithfulBlocks(bs: seq<Block>, s: Settings)
    requires forall i :: 0 <= i < |bs| ==> AreFaithful(BlockSettings(bs[i]), s)
    ensures AreFaithful(BlocksSettings(bs), s)
    decreases |bs|
  {
    if bs != [] {
      FaithfulBlocks(bs[1..], s);
    }
  }

  lemma {:induction false} InBlocks(bs: seq<Block>, i: nat, t: Setting)
    requires i < |bs| && t in BlockSettings(bs[i])
    ensures t in BlocksSettings(bs)
    decreases |bs|
  {
    if 0 < i {
      InBlocks(bs[1..], i - 1, t);
    }
  }

  lemma UsbBlock(b: Block, s: Settings)
    requires b == Block("USB_ETHERNET", Pairs(UsbVariables(), s)) && forall x: Variable :: ValidValue(x, s.Get(x))
    ensures IsBlock(IsAllowed, b) && AreFaithful(BlockSettings(b), s)
    ensures forall x :: x in UsbVariables() ==> ExportedSetting(x, s) in BlockSettings(b)
  {
    VariablesBlock(b, "USB_ETHERNET", UsbVariables(), s);
  }

  lemma NetworkBlock(b: Block, s: Settings)
    requires b == Block("NETWORK", Pairs(NetworkVariables(), s)) && forall x: Variable :: ValidValue(x, s.Get(x))
    ensures IsBlock(IsAllowed, b) && AreFaithful(BlockSettings(b), s)
    ensures forall x :: x in NetworkVariables() ==> ExportedSetting(x, s) in BlockSettings(b)
  {
    VariablesBlock(b, "NETWORK", NetworkVariables(), s);
  }

  lemma SystemBlock(b: Block, s: Settings)
    requires b == Block("SYSTEM", Pairs(SystemVariables(), s)) && forall x: Variable :: ValidValue(x, s.Get(x))
    ensures IsBlock(IsAllowed, b) && AreFaithful(BlockSettings(b), s)
    ensures forall x :: x in SystemVariables() ==> ExportedSetting(x, s) in BlockSettings(b)
  {
    VariablesBlock(b, "SYSTEM", SystemVariables(), s);
  }

  /** The exported sections are well formed, faithful, and name every variable. */
  lemma ExportedBlocks(s: Settings, bs: seq<Block>)
    requires bs == ExportBlocks(s) && forall x: Variable :: ValidValue(x, s.Get(x))
    ensures AreBlocks(IsAllowed, bs) && AreFaithful(BlocksSettings(bs), s)
    ensures forall x: Variable :: ExportedSetting(x, s) in BlocksSettings(bs)
  {
    UsbBlock(bs[0], s);
    NetworkBlock(bs[1], s);
    SystemBlock(bs[2], s);
    ActionsBlock(bs[3], "ACTIONS", "diagnostic_report", s);
    FourBlocks(bs, s);
  }

  lemma FourBlocks(bs: seq<Block>, s: Settings)
    requires |bs| == 4 && forall i :: 0 <= i < 4 ==> AreFaithful(BlockSettings(bs[i]), s)
    requires forall x :: x in UsbVariables() ==> ExportedSetting(x, s) in BlockSettings(bs[0])
    requires forall x :: x in NetworkVariables() ==> ExportedSetting(x, s) in BlockSettings(bs[1])
    requires forall x :: x in SystemVariables() ==> ExportedSetting(x, s) in BlockSettings(bs[2])
    ensures AreFaithful(BlocksSettings(bs), s)
    ensures forall x: Variable :: ExportedSetting(x, s) in BlocksSettings(bs)
  {
    FaithfulBlocks(bs, s);
    forall x: Variable
      ensures ExportedSetting(x, s) in BlocksSettings(bs)
    {
      VariableIsExported(bs, x, ExportedSetting(x, s));
    }
  }

  lemma VariableIsExported(bs: seq<Block>, x: Variable, t: Setting)
    requires 3 < |bs|
    requires x in UsbVariables() ==> t in BlockSettings(bs[0])
    requires x in NetworkVariables() ==> t in BlockSettings(bs[1])
    requires x in SystemVariables() ==> t in BlockSettings(bs[2])
    ensures t in BlocksSettings(bs)
  {
    AllAreListed(x);
    if x in UsbVariables() {
      InBlocks(bs, 0, t);
    } else if x in NetworkVariables() {
      InBlocks(bs, 1, t);
    } else {
      InBlocks(bs, 2, t);
    }
  }

  lemma {:induction false} LastForFaithful(ts: seq<Setting>, s: Settings, x: Variable, t: Setting)
    requires AreFaithful(ts, s) && t in ts && Meaning(t.section, t.key) == Some(Shell(x))
    ensures LastFor(Shell(x), ts) == Some(FirstLine(s.Get(x)))
    decreases |ts|
  {
    var last := ts[|ts| - 1];
    assert last in ts && IsFaithful(last, s);
    if Meaning(last.section, last.key) != Some(Shell(x)) {
      assert t in ts[..|ts| - 1];
      LastForFaithful(ts[..|ts| - 1], s, x, t);
    }
  }

  lemma {:induction false} ReportOfFaithful(ts: seq<Setting>, s: Settings)
    requires AreFaithful(ts, s)
    ensures Or(LastFor(DiagnosticReport, ts), "0") == "0"
    decreases |ts|
  {
    if ts != [] {
      var last := ts[|ts| - 1];
      assert last in ts && IsFaithful(last, s);
      ReportOfFaithful(ts[..|ts| - 1], s);
    }
  }

  lemma FaithfulIsAssigned(ts: seq<Setting>, s: Settings, values: Settings)
    requires AreFaithful(ts, s)
    requires forall x: Variable :: ExportedSetting(x, s) in ts
    ensures Assign(Loaded(values, "0"), ts) == Loaded(FirstLines(s), "0")
  {
    var end := Assign(Loaded(values, "0"), ts);
    forall x: Variable
      ensures end.values.Get(x) == FirstLines(s).Get(x)
    {
      FaithfulSets(ts, s, values, x, ExportedSetting(x, s));
      FirstLinesGet(s, x);
    }
    SameSettings(end.values, FirstLines(s));
    ReportOfFaithful(ts, s);
    LastSettingWins(Loaded(values, "0"), ts, UsbHostname);
  }

  lemma FaithfulSets(ts: seq<Setting>, s: Settings, values: Settings, x: Variable, t: Setting)
    requires AreFaithful(ts, s) && t in ts && t.section == SectionName(x) && t.key == KeyName(x)
    ensures Assign(Loaded(values, "0"), ts).values.Get(x) == FirstLine(s.Get(x))
  {
    ExportedKeyIsMeant(x);
    LastForFaithful(ts, s, x, t);
    LastSettingWins(Loaded(values, "0"), ts, x);
  }

  /** An exported file sets every variable to the first line of its value, whatever was set before. */
  lemma ExportIsAssigned(comments: seq<string>, s: Settings, values: Settings)
    requires AreComments(comments) && forall x: Variable :: ValidValue(x, s.Get(x))
    ensures Assign(Loaded(values, "0"), Parse(IsAllowed, ExportText(comments, s))) == Loaded(FirstLines(s), "0")
  {
    var bs := ExportBlocks(s);
    ExportedBlocks(s, bs);
    WrittenFileIsRead(IsAllowed, comments, bs);
    FaithfulIsAssigned(BlocksSettings(bs), s, values);
  }

  // ---------------------------------------------------------------------
  // Exporting and importing.

  lemma FirstRecordOnly(value: string)
    ensures Records(FirstLine(value)) == [FirstLine(value)] && Records(value)[..1] == [FirstLine(value)]
  {
    FirstOfRecords(value);
    SingleLine(FirstLine(value));
  }

  lemma FirstAddress(value: string)
    requires ValidIpv4(value)
    ensures ValidIpv4(FirstLine(value)) && FirstLine(value) != []
  {
    FirstRecordOnly(value);
    QuadIsDotted(Records(value)[0]);
    assert Records(value)[0] == FirstLine(value);
  }

  lemma FirstNetmask(value: string)
    requires ValidNetmask(value)
    ensures ValidNetmask(FirstLine(value)) && FirstLine(value) != []
  {
    FirstRecordOnly(value);
    assert Records(value)[0] == FirstLine(value);
    EachIsMask(Records(value), 0);
    MaskIsDotted(FirstLine(value));
    MasksBefore(Records(value), 1);
  }

  lemma FirstOptional(value: string)
    requires ValidOptionalIpv4(value)
    ensures ValidOptionalIpv4(FirstLine(value)) && (FirstLine(value) == [] <==> value == [])
  {
    if value != [] {
      FirstAddress(value);
    }
  }

  lemma FirstWord(value: string)
    requires IsWord(value)
    ensures FirstLine(value) == value
  {
    FirstLineOfSingle(value);
  }

  lemma FirstLineIsValid(x: Variable, value: string)
    requires ValidValue(x, value)
    ensures ValidValue(x, FirstLine(value)) && (FirstLine(value) == [] <==> value == [])
  {
    match x
    case UsbHostname => FirstWord(value);
    case UsbIpaddr => FirstAddress(value);
    case UsbIpaddrHost => FirstAddress(value);
    case UsbNetmask => FirstNetmask(value);
    case UsbEthernetMode => ChoicesAreWords(value); FirstWord(value);
    case NetworkMode => ChoicesAreWords(value); FirstWord(value);
    case NetworkIpaddr => FirstOptional(value);
    case NetworkNetmask => FirstNetmask(value);
    case NetworkGateway => FirstOptional(value);
    case XoCorrection => FirstWord(value);
    case UdcHandleSuspend => ChoicesAreWords(value); FirstWord(value);
  }

  lemma FirstLineOfSingle(value: string)
    ensures FirstLine(value) == value <==> '\n' !in value
  {
    if '\n' !in value {
      IndexOfNone(value, '\n');
    }
  }

  lemma FirstLinesAreValid(s: Settings)
    requires Valid(s)
    ensures Valid(FirstLines(s))
  {
    ValidIsEachValid(s);
    forall x: Variable
      ensures ValidValue(x, FirstLines(s).Get(x))
    {
      FirstLineIsValid(x, s.Get(x));
      FirstLinesGet(s, x);
    }
    ChoicesAreWords(s.networkMode);
    FirstWord(s.networkMode);
    FirstLineIsValid(NetworkIpaddr, s.networkIpaddr);
    ValidIsEachValid(FirstLines(s));
  }

  /**
   Importing the export of valid settings over any recognised environment is
   accepted, and leaves the settings with every value cut at its first line end.
   */
  lemma ExportIsImported(vars: Settings, env: Environment, comments: seq<string>, s: Settings, keeps: bool)
    requires Valid(s) && AreComments(comments) && "qspiboot" in env && OptionalsAreEmpty(vars)
    ensures var result := Import(vars, env, ExportText(comments, s), keeps);
            result.Ok? && Load(vars, result.value) == FirstLines(s)
  {
    ValidIsEachValid(s);
    ExportIsAssigned(comments, s, Load(vars, env));
    FirstLinesAreValid(s);
    FirstLinesTwice(s);
    StoredFirstLines(vars, env, FirstLines(s), keeps);
  }

  lemma FirstLinesTwice(s: Settings)
    ensures FirstLines(FirstLines(s)) == FirstLines(s)
  {
    forall x: Variable
      ensures FirstLines(FirstLines(s)).Get(x) == FirstLines(s).Get(x)
    {
      FirstLinesGet(s, x);
      FirstLinesGet(FirstLines(s), x);
      FirstLineTwice(s.Get(x));
    }
    SameSettings(FirstLines(FirstLines(s)), FirstLines(s));
  }

  /** So the settings come back exactly when no value has a line end. */
  lemma RoundTripExactly(vars: Settings, env: Environment, comments: seq<string>, s: Settings, keeps: bool)
    requires Valid(s) && AreComments(comments) && "qspiboot" in env && OptionalsAreEmpty(vars)
    ensures var result := Import(vars, env, ExportText(comments, s), keeps);
            && result.Ok?
            && (Load(vars, result.value) == s <==> AreSingleLines(s))
  {
    ExportIsImported(vars, env, comments, s, keeps);
    SameFirstLines(s);
  }

  lemma SameFirstLines(s: Settings)
    ensures FirstLines(s) == s <==> AreSingleLines(s)
  {
    forall x: Variable
      ensures FirstLines(s).Get(x) == s.Get(x) <==> IsSingleLine(s.Get(x))
    {
      FirstLinesGet(s, x);
      FirstLineOfSingle(s.Get(x));
    }
    if AreSingleLines(s) {
      SameSettings(FirstLines(s), s);
    }
  }

  /** Such values exist: any two addresses on two lines pass the address check, and only the first survives. */
  lemma TwoLineAddressPasses(first: string, second: string)
    requires IsQuad(first) && IsQuad(second)
    ensures ValidIpv4(first + "\n" + second) && FirstLine(first + "\n" + second) == first
  {
    QuadIsDotted(first);
    QuadIsDotted(second);
    TwoRecords(first, second);
  }

  lemma TwoRecords(first: string, second: string)
    requires '\n' !in first && '\n' !in second
    ensures Records(first + "\n" + second) == [first, second] && FirstLine(first + "\n" + second) == first
  {
    FirstLineOf(first, Terminated(second));
    SingleLine(second);
    TerminatedSecond(first, second);
    IndexOfSplit(first, '\n', second);
    assert (first + "\n" + second)[..|first|] == first;
  }

  lemma TerminatedSecond(first: string, second: string)
    ensures Terminated(first + "\n" + second) == first + "\n" + Terminated(second)
  {
  }

  // ---------------------------------------------------------------------
  // The defaults that ship.

  function ShippedDefaults(): Settings {
    Settings("antsdr", "192.168.2.1", "192.168.2.10", "255.255.255.0", "rndis",
             "dhcp", "", "255.255.255.0", "", "", "0")
  }

  lemma ShippedOptionalsAreEmpty()
    ensures OptionalsAreEmpty(ShippedDefaults())
  {
  }
}
