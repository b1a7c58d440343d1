/** Import and export of the persistent settings. */
module Config {
  import opened BootEnvironment
  import opened BootScript
  import opened Text
  import opened ConfigFile
  import opened ConfigValues
  import opened ConfigNames

  // ---------------------------------------------------------------------
  // The boot environment.

  /** Command substitution drops line ends at the end. */
  function Chomp(text: string): string {
    if text != [] && text[|text| - 1] == '\n' then Chomp(text[..|text| - 1]) else text
  }

  function ReadEnv(env: Environment, name: string, default: string): string {
    Chomp(if name in env then env[name] else default)
  }

  function ReadVariable(vars: Settings, env: Environment, x: Variable): string {
    ReadEnv(env, EnvName(x), vars.Get(x))
  }

  /** The mode that is stored, or `static` when an address is there, or what it was. */
  function LoadedMode(persisted: string, ipaddr: string, mode: string): string {
    if persisted != [] then persisted else if ipaddr != [] then "static" else mode
  }

  /** The value of a variable after loading. */
  function LoadedValue(vars: Settings, env: Environment, x: Variable): string {
    if x == NetworkMode then
      LoadedMode(ReadEnv(env, EnvName(NetworkMode), []), ReadVariable(vars, env, NetworkIpaddr), vars.networkMode)
    else
      ReadVariable(vars, env, x)
  }

  function Load(vars: Settings, env: Environment): Settings {
    Settings(LoadedValue(vars, env, UsbHostname), LoadedValue(vars, env, UsbIpaddr),
             LoadedValue(vars, env, UsbIpaddrHost), LoadedValue(vars, env, UsbNetmask),
             LoadedValue(vars, env, UsbEthernetMode), LoadedValue(vars, env, NetworkMode),
             LoadedValue(vars, env, NetworkIpaddr), LoadedValue(vars, env, NetworkNetmask),
             LoadedValue(vars, env, NetworkGateway), LoadedValue(vars, env, XoCorrection),
             LoadedValue(vars, env, UdcHandleSuspend))
  }

  function UsbVariables(): seq<Variable> {
    [UsbHostname, UsbIpaddr, UsbIpaddrHost, UsbNetmask, UsbEthernetMode]
  }

  function NetworkVariables(): seq<Variable> {
    [NetworkMode, NetworkIpaddr, NetworkNetmask, NetworkGateway]
  }

  function SystemVariables(): seq<Variable> {
    [XoCorrection, UdcHandleSuspend]
  }

  function AllVariables(): seq<Variable> {
    UsbVariables() + NetworkVariables() + SystemVariables()
  }

  lemma AllAreListed(x: Variable)
    ensures x in AllVariables()
  {
    assert UsbHostname == AllVariables()[0] && UsbIpaddr == AllVariables()[1] && UsbIpaddrHost == AllVariables()[2];
    assert UsbNetmask == AllVariables()[3] && UsbEthernetMode == AllVariables()[4] && NetworkMode == AllVariables()[5];
    assert NetworkIpaddr == AllVariables()[6] && NetworkNetmask == AllVariables()[7];
    assert NetworkGateway == AllVariables()[8] && XoCorrection == AllVariables()[9];
    assert UdcHandleSuspend == AllVariables()[10];
  }

  function Bindings(xs: seq<Variable>, s: Settings): seq<Binding> {
    seq(|xs|, i requires 0 <= i < |xs| => Binding(EnvName(xs[i]), s.Get(xs[i])))
  }

  /** The script that the import hands to `fw_setenv`. */
  function StoreScript(s: Settings): string {
    ScriptText(Bindings(AllVariables(), s))
  }

  lemma NextBinding(xs: seq<Variable>, i: nat, s: Settings)
    requires i < |xs|
    ensures ScriptText(Bindings(xs[i..], s))
         == (EnvName(xs[i]) + " " + Terminated(s.Get(xs[i]))) + ScriptText(Bindings(xs[i + 1..], s))
  {
    var bindings := Bindings(xs[i..], s);
    JoinedFirst(bindings);
    assert bindings[1..] == Bindings(xs[i + 1..], s);
  }

  function Store(env: Environment, s: Settings, keeps: bool): Environment {
    RunScript(env, StoreScript(s), keeps)
  }

  predicate IsSettingName(name: string) {
    exists i :: 0 <= i < |AllVariables()| && name == EnvName(AllVariables()[i])
  }

  ghost predicate AllExportable(s: Settings) {
    forall x: Variable :: IsExportable(s.Get(x))
  }

  /** A line, after the first, of one of the values. */
  ghost predicate IsSpilledName(name: string, s: Settings) {
    exists x: Variable :: Records(s.Get(x)) != [] && name in Continuations(s.Get(x))
  }

  lemma EnvNameIsKey(x: Variable)
    ensures IsKey(EnvName(x))
  {
  }

  lemma BindingIsStored(s: Settings, x: Variable)
    ensures Binding(EnvName(x), s.Get(x)) in Bindings(AllVariables(), s)
  {
    AllAreListed(x);
    var i :| 0 <= i < |AllVariables()| && AllVariables()[i] == x;
    assert Bindings(AllVariables(), s)[i] == Binding(EnvName(x), s.Get(x));
  }

  lemma BindingsAreBindings(xs: seq<Variable>, s: Settings, b: Binding)
    requires AllExportable(s) && b in Bindings(xs, s)
    ensures IsBinding(b) && exists x :: x in xs && b == Binding(EnvName(x), s.Get(x))
  {
    var i :| 0 <= i < |xs| && Bindings(xs, s)[i] == b;
    EnvNameIsKey(xs[i]);
    assert xs[i] in xs;
  }

  /** Everything the script stores, first lines under the settings' names and nothing under spilled names. */
  lemma ScriptStores(s: Settings, stored: seq<Binding>)
    requires AllExportable(s) && stored == BindingsOf(Lines(StoreScript(s)))
    ensures forall x: Variable :: Binding(EnvName(x), FirstLine(s.Get(x))) in stored
    ensures forall name :: IsSpilledName(name, s) ==> Binding(name, []) in stored
    ensures forall b :: b in stored ==>
              (exists x: Variable :: b == Binding(EnvName(x), FirstLine(s.Get(x))))
              || (b.value == [] && IsSpilledName(b.name, s))
  {
    var bindings := Bindings(AllVariables(), s);
    forall b | b in bindings
      ensures IsBinding(b)
    {
      BindingsAreBindings(AllVariables(), s, b);
    }
    ScriptIsSpilled(bindings);
    forall x: Variable
      ensures Binding(EnvName(x), FirstLine(s.Get(x))) in stored
    {
      BindingIsStored(s, x);
      SpilledBindings(bindings, Binding(EnvName(x), FirstLine(s.Get(x))));
    }
    forall name | IsSpilledName(name, s)
      ensures Binding(name, []) in stored
    {
      var x: Variable :| Records(s.Get(x)) != [] && name in Continuations(s.Get(x));
      BindingIsStored(s, x);
      assert IsContinuation(name, bindings);
      SpilledBindings(bindings, Binding(name, []));
    }
    forall b | b in stored
      ensures (exists x: Variable :: b == Binding(EnvName(x), FirstLine(s.Get(x))))
              || (b.value == [] && IsSpilledName(b.name, s))
    {
      StoredIsNamed(s, bindings, b);
    }
  }

  lemma StoredIsNamed(s: Settings, bindings: seq<Binding>, b: Binding)
    requires AllExportable(s) && bindings == Bindings(AllVariables(), s)
    requires forall e :: e in bindings ==> Records(e.value) != []
    requires b in SpilledAll(bindings)
    ensures (exists x: Variable :: b == Binding(EnvName(x), FirstLine(s.Get(x))))
            || (b.value == [] && IsSpilledName(b.name, s))
  {
    SpilledBindings(bindings, b);
    if e :| e in bindings && b == Binding(e.name, FirstLine(e.value)) {
      BindingsAreBindings(AllVariables(), s, e);
    } else {
      var e :| e in bindings && Records(e.value) != [] && b.name in Continuations(e.value);
      BindingsAreBindings(AllVariables(), s, e);
    }
  }

  /** Spilled names are digits and dots, so none of them is a setting's. */
  lemma SpilledIsDotted(name: string, s: Settings)
    requires AllExportable(s) && IsSpilledName(name, s)
    ensures IsDotted(name)
  {
    var x: Variable :| Records(s.Get(x)) != [] && name in Continuations(s.Get(x));
    RecordsSplit(s.Get(x), Records(s.Get(x)));
    var i :| 0 <= i < |Continuations(s.Get(x))| && Continuations(s.Get(x))[i] == name;
  }

  lemma KeyIsNotDotted(name: string)
    requires IsKey(name)
    ensures !IsDotted(name)
  {
    var c := name[0];
    assert !IsDigit(c) && c != '.';
  }

  /** What an environment holds after a store, name by name. */
  lemma StoredSettings(env: Environment, s: Settings, keeps: bool, x: Variable)
    requires AllExportable(s)
    ensures Lookup(Store(env, s, keeps), EnvName(x)) == Kept(FirstLine(s.Get(x)), keeps)
  {
    var stored, name := BindingsOf(Lines(StoreScript(s))), EnvName(x);
    ScriptStores(s, stored);
    forall b | b in stored && b.name == name
      ensures b.value == FirstLine(s.Get(x))
    {
      if IsSpilledName(name, s) {
        SpilledIsDotted(name, s);
        EnvNameIsKey(x);
        KeyIsNotDotted(name);
      }
      var y: Variable :| b == Binding(EnvName(y), FirstLine(s.Get(y)));
      EnvNamesDiffer(x, y);
    }
    LastValueIs(stored, name, FirstLine(s.Get(x)));
    BootScript.StoredLookup(env, stored, keeps, name);
  }

  /** A spilled line loses whatever was stored under its text, and every other name stands. */
  lemma StoredOthers(env: Environment, s: Settings, keeps: bool, name: string)
    requires AllExportable(s) && !IsSettingName(name)
    ensures Lookup(Store(env, s, keeps), name) == if IsSpilledName(name, s) then Kept([], keeps) else Lookup(env, name)
  {
    var stored := BindingsOf(Lines(StoreScript(s)));
    ScriptStores(s, stored);
    forall x: Variable
      ensures EnvName(x) != name
    {
      AllAreListed(x);
    }
    if IsSpilledName(name, s) {
      LastValueIs(stored, name, []);
    } else {
      NoLastValue(stored, name);
    }
    BootScript.StoredLookup(env, stored, keeps, name);
  }

  lemma FirstLineTwice(value: string)
    ensures FirstLine(FirstLine(value)) == FirstLine(value) && Records(FirstLine(value)) == [FirstLine(value)]
  {
    IndexOfNone(FirstLine(value), '\n');
    SingleLine(FirstLine(value));
  }

  /** Storing the first lines again changes nothing. */
  lemma StoreTwice(env: Environment, s: Settings, keeps: bool)
    requires AllExportable(s) && AllExportable(FirstLines(s))
    ensures Store(Store(env, s, keeps), FirstLines(s), keeps) == Store(env, s, keeps)
  {
    var once := Store(env, s, keeps);
    forall name
      ensures Lookup(Store(once, FirstLines(s), keeps), name) == Lookup(once, name)
    {
      StoredTwice(env, s, keeps, name);
    }
    SameEnvironment(Store(once, FirstLines(s), keeps), once);
  }

  lemma StoredTwice(env: Environment, s: Settings, keeps: bool, name: string)
    requires AllExportable(s) && AllExportable(FirstLines(s))
    ensures Lookup(Store(Store(env, s, keeps), FirstLines(s), keeps), name) == Lookup(Store(env, s, keeps), name)
  {
    if x: Variable :| EnvName(x) == name {
      StoredSettings(env, s, keeps, x);
      StoredSettings(Store(env, s, keeps), FirstLines(s), keeps, x);
      FirstLinesGet(s, x);
      FirstLineTwice(s.Get(x));
    } else {
      NothingSpills(s, name);
      StoredOthers(Store(env, s, keeps), FirstLines(s), keeps, name);
    }
  }

  lemma NothingSpills(s: Settings, name: string)
    ensures !IsSpilledName(name, FirstLines(s))
  {
    forall x: Variable
      ensures Records(FirstLines(s).Get(x)) == [FirstLine(s.Get(x))]
    {
      FirstLinesGet(s, x);
      FirstLineTwice(s.Get(x));
    }
  }
}
