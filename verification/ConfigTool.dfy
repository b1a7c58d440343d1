/** The configuration command as it runs: shell variables that change, loops over records, and the boot environment. */
module ConfigTool {
  import opened Basics
  import opened BootEnvironment
  import opened BootScript
  import opened Text
  import opened ConfigFile
  import opened ConfigValues
  import opened ConfigNames
  import opened Config
  import opened ConfigImport

  // ---------------------------------------------------------------------
  // The awk programs.

  method CheckQuad(record: string) returns (ok: bool)
    ensures ok == IsQuad(record)
  {
    var fields := Fields(record);
    if |fields| != 4 {
      return false;
    }
    for field := 0 to 4
      invariant forall i :: 0 <= i < field ==> IsOctet(fields[i])
    {
      if fields[field] == [] || !AllDigits(fields[field]) || Decimal(fields[field]) > 255 {
        return false;
      }
    }
    return true;
  }

  method CheckMask(record: string) returns (ok: bool)
    ensures ok == IsMask(record)
  {
    var fields := Fields(record);
    if |fields| != 4 {
      return false;
    }
    var zeroTail := false;
    for field := 0 to 4
      invariant MaskFrom(fields, false) == MaskFrom(fields[field..], zeroTail)
    {
      assert fields[field..][1..] == fields[field + 1..];
      if zeroTail && !Equals(fields[field], 0) {
        return false;
      }
      if !zeroTail && !Equals(fields[field], 255) {
        if !IsPartialOctet(fields[field]) {
          return false;
        }
        zeroTail := true;
      }
    }
    return true;
  }

  method CheckIpv4(value: string) returns (ok: bool)
    ensures ok == ValidIpv4(value)
  {
    if value == [] {
      return false;
    }
    var records := Records(value);
    for i := 0 to |records|
      invariant forall k :: 0 <= k < i ==> IsQuad(records[k])
    {
      var good := CheckQuad(records[i]);
      if !good {
        return false;
      }
    }
    return true;
  }

  method CheckNetmask(value: string) returns (ok: bool)
    ensures ok == ValidNetmask(value)
  {
    ok := CheckMasks(Records(value));
  }

  method CheckMasks(records: seq<string>) returns (ok: bool)
    ensures ok == AreMasks(records)
  {
    for i := 0 to |records|
      invariant AreMasks(records[..i])
    {
      var good := CheckMask(records[i]);
      OneMoreMask(records, i);
      if !good {
        return false;
      }
    }
    assert records[..|records|] == records;
    return true;
  }

  lemma OneMoreMask(records: seq<string>, i: nat)
    requires i < |records|
    ensures AreMasks(records[..i + 1]) <==> AreMasks(records[..i]) && IsMask(records[i])
    ensures AreMasks(records) ==> AreMasks(records[..i + 1])
  {
    assert records[..i + 1][..i] == records[..i];
    if AreMasks(records) {
      MasksBefore(records, i + 1);
    }
  }

  method ParseConfig(allowed: Allowed, text: string) returns (settings: seq<Setting>)
    ensures settings == Parse(allowed, text)
  {
    var lines := Lines(text);
    ghost var all := Classified(lines);
    var section := "";
    settings := [];
    for i := 0 to |lines|
      invariant settings + SettingsMade(allowed, section, all[i..]) == SettingsMade(allowed, "", all)
    {
      ghost var line := all[i];
      NextLine(allowed, section, all, i, line, settings);
      section, settings := ParseLine(allowed, section, settings, lines[i], line);
    }
  }

  /** The awk program's actions on one record. */
  method ParseLine(allowed: Allowed, section: string, settings: seq<Setting>, record: string, ghost line: Line)
    returns (section': string, settings': seq<Setting>)
    requires line == LineOf(record)
    ensures section' == SectionAfter(section, line) && settings' == settings + SettingOf(allowed, section, line)
  {
    section', settings' := section, settings;
    var text := Trim(record);
    if text == [] || text[0] == '#' || text[0] == ';' {
      return;
    }
    if IsHeading(text) {
      section' := text[1..|text| - 1];
      return;
    }
    var separator := IndexOf(text, '=');
    if separator == |text| {
      return;
    }
    var key, value := Trim(text[..separator]), Trim(text[separator + 1..]);
    if allowed(section, key) {
      settings' := settings + [Setting(section, key, value)];
    }
  }

  lemma NextLine(allowed: Allowed, section: string, all: seq<Line>, i: nat, line: Line, settings: seq<Setting>)
    requires i < |all| && all[i] == line
    ensures settings + SettingsMade(allowed, section, all[i..])
         == settings + SettingOf(allowed, section, line) + SettingsMade(allowed, SectionAfter(section, line), all[i + 1..])
  {
    assert all[i..][1..] == all[i + 1..];
  }

  // ---------------------------------------------------------------------
  // The command.

  lemma StoreNext(env: Environment, bindings: seq<Binding>, i: nat, keeps: bool)
    requires i < |bindings|
    ensures StoreBindings(env, bindings[..i + 1], keeps)
         == StoreOne(StoreBindings(env, bindings[..i], keeps), bindings[i].name, bindings[i].value, keeps)
  {
    assert bindings[..i + 1][..i] == bindings[..i];
  }

  class Tool {
    /** What `fw_setenv` does with an empty value. */
    const keeps: bool
    var vars: Settings
    var report: string
    var environment: Environment

    /** The defaults are sourced first. */
    constructor (defaults: Settings, environment: Environment, keeps: bool)
      ensures vars == defaults && this.environment == environment && this.keeps == keeps
    {
      this.keeps := keeps;
      vars := defaults;
      report := "0";
      this.environment := environment;
    }

    method LoadValues()
      modifies this`vars
      ensures vars == Load(old(vars), environment)
    {
      var env := environment;
      vars := vars.(usbHostname := ReadVariable(vars, env, UsbHostname));
      vars := vars.(usbIpaddr := ReadVariable(vars, env, UsbIpaddr));
      vars := vars.(usbIpaddrHost := ReadVariable(vars, env, UsbIpaddrHost));
      vars := vars.(usbNetmask := ReadVariable(vars, env, UsbNetmask));
      vars := vars.(usbEthernetMode := ReadVariable(vars, env, UsbEthernetMode));
      vars := vars.(networkIpaddr := ReadVariable(vars, env, NetworkIpaddr));
      vars := vars.(networkNetmask := ReadVariable(vars, env, NetworkNetmask));
      vars := vars.(networkGateway := ReadVariable(vars, env, NetworkGateway));
      vars := vars.(xoCorrection := ReadVariable(vars, env, XoCorrection));
      vars := vars.(udcHandleSuspend := ReadVariable(vars, env, UdcHandleSuspend));
      var persisted := ReadEnv(env, EnvName(NetworkMode), []);
      if persisted != [] {
        vars := vars.(networkMode := persisted);
      } else if vars.networkIpaddr != [] {
        vars := vars.(networkMode := "static");
      }
    }

    method ValidateValues() returns (ok: bool)
      ensures ok == Valid(vars)
    {
      if !ValidHostname(vars.usbHostname) { return false; }
      var good := CheckIpv4(vars.usbIpaddr);
      if !good { return false; }
      good := CheckIpv4(vars.usbIpaddrHost);
      if !good { return false; }
      good := CheckNetmask(vars.usbNetmask);
      if !good { return false; }
      if vars.usbEthernetMode !in {"rndis", "ncm", "ecm"} { return false; }
      if vars.networkMode !in {"dhcp", "static"} { return false; }
      good := CheckOptionalIpv4(vars.networkIpaddr);
      if !good { return false; }
      good := CheckNetmask(vars.networkNetmask);
      if !good { return false; }
      good := CheckOptionalIpv4(vars.networkGateway);
      if !good { return false; }
      if vars.networkMode == "static" && vars.networkIpaddr == [] { return false; }
      if vars.udcHandleSuspend !in {"0", "1"} { return false; }
      return AllDigits(vars.xoCorrection);
    }

    method CheckOptionalIpv4(value: string) returns (ok: bool)
      ensures ok == ValidOptionalIpv4(value)
    {
      if value == [] {
        return true;
      }
      ok := CheckIpv4(value);
    }

    /** The read loop over the parsed settings. */
    method AssignSettings(settings: seq<Setting>)
      modifies this`vars, this`report
      ensures Loaded(vars, report) == Assign(Loaded(old(vars), old(report)), settings)
    {
      for i := 0 to |settings|
        invariant Loaded(vars, report) == Assign(Loaded(old(vars), old(report)), settings[..i])
      {
        assert settings[..i + 1][..i] == settings[..i];
        var t := settings[i];
        match Meaning(t.section, t.key)
        case None =>
        case Some(DiagnosticReport) =>
          report := t.value;
        case Some(Shell(x)) =>
          vars := vars.With(x, t.value);
      }
      assert settings[..|settings|] == settings;
    }

    /** The script for `fw_setenv`, one `printf` after the other. */
    method WriteScript() returns (script: string)
      ensures script == StoreScript(vars)
    {
      var xs := AllVariables();
      script := [];
      for i := 0 to |xs|
        invariant script + ScriptText(Bindings(xs[i..], vars)) == ScriptText(Bindings(xs, vars))
      {
        NextBinding(xs, i, vars);
        script := script + (EnvName(xs[i]) + " " + Terminated(vars.Get(xs[i])));
      }
      assert Bindings(xs[|xs|..], vars) == [];
    }

    /** What `fw_setenv` does with it, line by line. */
    method SetEnvironment(script: string)
      modifies this`environment
      ensures environment == RunScript(old(environment), script, keeps)
    {
      StoreEach(BindingsOf(Lines(script)));
    }

    method StoreEach(bindings: seq<Binding>)
      modifies this`environment
      ensures environment == StoreBindings(old(environment), bindings, keeps)
    {
      for i := 0 to |bindings|
        invariant environment == StoreBindings(old(environment), bindings[..i], keeps)
      {
        StoreNext(old(environment), bindings, i, keeps);
        environment := StoreOne(environment, bindings[i].name, bindings[i].value, keeps);
      }
      assert bindings[..|bindings|] == bindings;
    }

    method StoreValues()
      modifies this`environment
      ensures environment == Store(old(environment), vars, keeps)
    {
      var script := WriteScript();
      SetEnvironment(script);
    }

    /** The environment changes exactly as the specification of an import says, and not at all when it is refused. */
    method ImportConfig(text: string) returns (error: Option<ConfigError>)
      modifies this
      ensures match Import(old(vars), old(environment), text, keeps)
              case Ok(after) => error == None && environment == after
              case Err(e) => error == Some(e) && environment == old(environment)
    {
      Settle(text);
      error := Refuse();
      Finish(error);
    }

    /** Nothing is stored after a refusal. */
    method Finish(error: Option<ConfigError>)
      modifies this`environment
      ensures match Finished(error, vars, old(environment), keeps)
              case Ok(after) => error == None && environment == after
              case Err(e) => error == Some(e) && environment == old(environment)
    {
      if error == None {
        StoreValues();
      }
    }

    method Begin()
      modifies this`vars, this`report
      ensures Loaded(vars, report) == Begun(old(vars), environment)
    {
      LoadValues();
      report := "0";
    }

    /** What is stored, with the settings of the file over it. */
    method Settle(text: string)
      modifies this`vars, this`report
      ensures Loaded(vars, report) == Settled(old(vars), environment, text)
    {
      Begin();
      var settings := ParseConfig(IsAllowed, text);
      AssignSettings(settings);
    }

    method Refuse() returns (error: Option<ConfigError>)
      ensures error == Refusal(Loaded(vars, report), environment)
    {
      var good := ValidateValues();
      if !good {
        return Some(InvalidValue);
      }
      if report !in {"0", "1"} {
        return Some(InvalidReport);
      }
      if "qspiboot" !in environment {
        return Some(UnknownEnvironment);
      }
      return None;
    }

    method ExportConfig(comments: seq<string>) returns (text: string)
      modifies this`vars
      ensures vars == Load(old(vars), environment) && text == ExportText(comments, vars)
    {
      LoadValues();
      text := ExportText(comments, vars);
    }
  }
}
